# Holmes: what the case ledger and its neighbours guarantee

Holmes is an agent that keeps what it believes about a case in an append-only ledger of events. This
project models that ledger and seven smaller components of the same program, and proves what each of
them keeps over every run.

- **The hypothesis ledger** (`LedgerTypes`, `LedgerSpec`, `LedgerStore`). Twenty kinds of event act on a
  projection of nine tables and sets. `LedgerStore.Ledger` is the reducer as the program has it, an
  object whose fields it updates in place; `LedgerSpec.Step` says on values what one event does, and the
  reducer is proved against it, with its errors, in their order. `LedgerAcceptance` says which events are
  accepted and what a refused one is answered with, `LedgerEffects` what an accepted one writes, and
  `LedgerLog` that the projection of a stream is the last word of its first deliveries on everything.
  `LedgerReplay`, `LedgerInvariants`,
  `LedgerLifecycle`, `LedgerConcurrency`, `LedgerProvenance` and `LedgerOwnership` prove what all streams
  of events have in common: replay may repeat events; nothing refers to what is not there; at most one decision per
  hypothesis; at most one winner per revision; attempts fence; nothing rests on itself. `LedgerWitness`
  is the stream that shows what goes wrong when a link id is used twice.
- **Rebuilding a conversation** (`Conversation`, `ConversationLegality`, `ConversationShapes`,
  `ConversationLayout`, `ConversationContent`, `LegacyQueues`). A session's event log becomes a list of
  model messages; outcomes are matched with calls by id or, in old logs, by tool name; calls without an
  outcome get a synthesized result by splices from the back of the list. Proved are what the list says,
  how it is laid out, and exactly when it is legal.
- **The session tree** (`SessionTree`, `SessionTreeWalk`). A walk over parent links that may be missing or
  circular, in its two forms: printed, and on screen with folded sessions.
- **Streaming** (`LineSplitter`), **rate limiting** (`TokenBucket`), **background tasks**
  (`BackgroundTasks`), **subagent results** (`SubagentResult`) and **truncation** (`Utf8Truncation`).

`Results` and `Text` hold the option and result types and the text operations that decisions depend on,
`Picking` what it means to list the positions of one kind of element in order.

Everything is stated for all inputs. Where a property holds only under a condition, the lemma names it.
Ids and free text are strings, times are integers (real seconds in the limiter), revisions, versions and
sequence numbers are unbounded naturals, and the fencing attempt is bounded by 32 bits.

## Where code and documentation differ

The model follows the code.

- A repeated link with the same evidence, hypothesis, prediction and relation should be idempotent
  (docs/architecture/hypothesis-ledger-v2.md:492). The reducer refuses it
  (crates/holmes-core/src/ledger.rs:1130-1137), exactly unless it is the repetition of an applied event
  (`LedgerReplay.RepeatedMeaningIsRefused`).
- Resolutions and what they cite are meant to last (docs/architecture/hypothesis-ledger-v2.md:520), but a
  link id is never checked for being new (crates/holmes-core/src/ledger.rs:1130-1144), so an accepted link
  can overwrite one that a resolution cites.
  `LedgerWitness.ReusedLinkIdClosesACircle` shows what that can lead to, and
  `LedgerProvenance.RunStaysAcyclicExactlyWhen` and `LedgerOwnership.RunStaysOwnedExactlyWhen` say for
  whole runs exactly when it does.
- The drawn state machine has no way from Inconclusive to Superseded
  (docs/architecture/hypothesis-ledger-v2.md:546-559); the reducer supersedes from every other status
  (crates/holmes-core/src/ledger.rs:1350-1352, `LedgerLifecycle.SupersedableExactlyWhen`).
- A repeated event id at an old sequence number is skipped whatever it contains: the payload, schema and
  aggregate of the repetition are never compared with the first delivery
  (crates/holmes-core/src/ledger.rs:777-780).
- `transition_experiment` writes the task and the attempt before its last check. By itself it is not
  atomic; `LedgerConcurrency.RefusalLeaksExactlyWhen` gives the exact condition, and no caller meets it.
- An experiment may be planned with any list of evidence ids (`LedgerInvariants.PlanMayListUnknownEvidence`);
  plans are exactly what can make a listed id unknown (`LedgerInvariants.ListedEvidenceIsKeptExactlyWhen`).
  It may also be planned with any attempt; with the largest it can never be started
  (`LedgerConcurrency.StartableExactlyWhen`).
- The conversation repair promises a result for every call (crates/holmes-cli/src/chat.rs:287-288). With
  repeated call ids it can leave a call with two results, or with one that comes first, and so it can when
  a logged call has the id that is made up for an orphaned outcome. `ConversationShapes` gives the exact
  condition for every log, and `ConversationLegality.RepeatedCallStaysIllegal` and
  `ConversationShapes.CollisionIsIllegal` are examples.
- Both session trees have code for indentation and connectors, but roots start with an empty prefix and
  an empty prefix stays empty, so no line is ever indented (`SessionTree.NoRowIsIndented`).
- On screen, the descendants of a folded session are not hidden: the loop over what is left lists them at
  the end (crates/holmes-cli/src/tui.rs:1574-1578).
- A limit of zero requests per minute divides by zero, so that no finite wait exists; it starves every
  caller, and no other limit does (`TokenBucket.StarvesExactlyWhenZero`).

## Model

| member | source | states |
|---|---|---|
| LedgerStore.Ledger.constructor | crates/holmes-core/src/ledger.rs:584-599 | A new projection is the empty one of its case. |
| LedgerStore.Ledger.CheckTransition | crates/holmes-core/src/ledger.rs:682-740 | The checks before any write give the verdict of the gate: kind, existence, current revision, announced revision, legal move, rising attempt, in this order. |
| LedgerStore.Ledger.CheckEvidence | crates/holmes-core/src/ledger.rs:748-753 | The walk over observed evidence accepts exactly when all of it is stored. |
| LedgerStore.TransitionFor | crates/holmes-core/src/ledger.rs:931-1059 | Each of the seven experiment events asks for the transition that the values say. |
| LedgerStore.Ledger.TransitionExperiment | crates/holmes-core/src/ledger.rs:676-760 | The verdict, and the exact experiment table afterwards, also for the refusal that comes after the task and attempt were written; when accepted, every field of the moved experiment, set to what the transition gives or left as it was. |
| LedgerStore.Ledger.ProposeHypothesis | crates/holmes-core/src/ledger.rs:804-845 | Accepted exactly when the proposal is addressed rightly and acceptable; then the hypothesis is stored, otherwise nothing changes. |
| LedgerStore.Ledger.DeclarePrediction | crates/holmes-core/src/ledger.rs:846-873 | The same for a prediction of an existing hypothesis with a non-blank falsifier. |
| LedgerStore.Ledger.PlanExperiment | crates/holmes-core/src/ledger.rs:874-930 | The same for an experiment: known hypotheses, predictions of those hypotheses, an unused idempotency key. |
| LedgerStore.Ledger.RecordEvidence | crates/holmes-core/src/ledger.rs:1060-1097 | The same for evidence: its call agrees with its binding, and its predictions are those of its experiment. |
| LedgerStore.Ledger.LinkEvidence | crates/holmes-core/src/ledger.rs:1098-1145 | The same for a link; a second link of the same meaning is refused, a used link id is not. |
| LedgerStore.Ledger.CheckLinks | crates/holmes-core/src/ledger.rs:1174-1185 | The walk over cited links accepts exactly when all of them exist and belong to the hypothesis. |
| LedgerStore.Ledger.NoteHypothesis | crates/holmes-core/src/ledger.rs:1146-1154 | Rejection notes are accepted exactly at the current revision of a known hypothesis. |
| LedgerStore.Ledger.DetectContradiction | crates/holmes-core/src/ledger.rs:1155-1195 | Verdict and new state for a contradiction. |
| LedgerStore.Ledger.RequestResolution | crates/holmes-core/src/ledger.rs:1196-1227 | Verdict for a resolution request, which writes nothing. |
| LedgerStore.Ledger.CheckResolution | crates/holmes-core/src/ledger.rs:1233-1282 | The checks of a resolution in their order, as one verdict. |
| LedgerStore.Ledger.ResolveHypothesis | crates/holmes-core/src/ledger.rs:1228-1294 | Verdict, and on acceptance the new status, the next revision and the stored resolution; otherwise nothing changes. |
| LedgerStore.Ledger.ChangeStatus | crates/holmes-core/src/ledger.rs:1350-1355 | The three writes of a change of status leave one changed hypothesis. |
| LedgerStore.Ledger.ReopenHypothesis | crates/holmes-core/src/ledger.rs:1295-1323 | Verdict and new state for reopening an Inconclusive hypothesis. |
| LedgerStore.Ledger.SupersedeHypothesis | crates/holmes-core/src/ledger.rs:1324-1356 | Verdict and new state for superseding by a different, existing hypothesis. |
| LedgerStore.Ledger.CommitDeliberation | crates/holmes-core/src/ledger.rs:1357-1397 | Verdict and new state for a commit that read the present version. |
| LedgerStore.Ledger.ApplyTransition | crates/holmes-core/src/ledger.rs:931-1059 | For the seven experiment events a refusal leaves the table untouched. |
| LedgerStore.Ledger.ApplyNewEntity | crates/holmes-core/src/ledger.rs:804-1397 | Every event that brings an entity: its verdict, its one insertion, no change on refusal. |
| LedgerStore.Ledger.ApplyToHypothesis | crates/holmes-core/src/ledger.rs:1146-1356 | Every event about an existing hypothesis: its verdict and writes, no change on refusal. |
| LedgerStore.Ledger.ApplyPayload | crates/holmes-core/src/ledger.rs:803-1398 | All twenty event kinds: the verdict, the written tables, and no change at all on refusal. |
| LedgerStore.Ledger.ApplyLedgerEvent | crates/holmes-core/src/ledger.rs:766-1404 | The in-place reducer refines the step on values, whose acceptance, errors and effects `LedgerAcceptance` and `LedgerEffects` spell out, and leaves every field as it was whenever it reports an error, for every event and every state. |
| LedgerStore.ReduceLedgerEvents | crates/holmes-core/src/ledger.rs:1406-1415 | Replaying a stream gives the fold of the steps, or the error of the first refused event. |
| LedgerSpec.AcceptanceIsAdmission | crates/holmes-core/src/ledger.rs:803-1398 | The ordered checks accept exactly the admissible payloads in envelopes that announce the right aggregate and revision: the order decides only which error is reported. |
| LedgerSpec.TransitionsAreAtomic | crates/holmes-core/src/ledger.rs:931-1059 | For the transitions that events make, a refused call leaves all tables as they were, although the writes precede the last check. |
| LedgerAcceptance.ProposalAccepted | crates/holmes-core/src/ledger.rs:804-845 | A proposal is accepted if and only if it is in turn, announced under its id at revision 1, open, of this case, new, with 1 to 1000 characters that are not all whitespace, on stored premises. |
| LedgerAcceptance.PredictionAccepted | crates/holmes-core/src/ledger.rs:846-873 | A prediction is accepted if and only if it is in turn, announced, of this case at revision 1, new, falsifiable in words, and about a stored hypothesis. |
| LedgerAcceptance.PlanAccepted | crates/holmes-core/src/ledger.rs:874-930 | A plan is accepted if and only if it is in turn, announced, Planned at revision 1, new, has a key no other experiment has, and tests stored hypotheses by stored predictions of theirs. |
| LedgerAcceptance.EvidenceAccepted | crates/holmes-core/src/ledger.rs:1060-1097 | Evidence is accepted if and only if it is in turn, announced, new, its call ids agree, and it covers only predictions of the stored experiment it names, or none. |
| LedgerAcceptance.LinkAccepted | crates/holmes-core/src/ledger.rs:1098-1145 | A link is accepted if and only if it is in turn, announced, joins stored records by a prediction both sides share, differs in meaning from every stored link, and has at most 800 characters of rationale. |
| LedgerAcceptance.CommitAccepted | crates/holmes-core/src/ledger.rs:1357-1397 | A commit is accepted if and only if it is in turn, announced, new, made at the present version, and names stored hypotheses and experiments. |
| LedgerAcceptance.NoteAccepted | crates/holmes-core/src/ledger.rs:1146-1195 | A note is accepted if and only if it is in turn and announced at the current revision of a stored hypothesis; a contradiction also if it is new and cites only links about it. |
| LedgerAcceptance.RequestAccepted | crates/holmes-core/src/ledger.rs:1196-1227 | A request is accepted if and only if it read and announces the current revision and cites only links about the hypothesis. |
| LedgerAcceptance.ResolutionAccepted | crates/holmes-core/src/ledger.rs:1228-1286 | A resolution is accepted if and only if it is new, read the current revision of an Open hypothesis, announces the next, and cites, as evidence or as open contradiction, only links about it. |
| LedgerAcceptance.RevisalAccepted | crates/holmes-core/src/ledger.rs:1295-1356 | A reopening is accepted if and only if the hypothesis is Inconclusive at the revision it read; a supersession if and only if it is not superseded and another stored one replaces it. |
| LedgerAcceptance.MoveAccepted | crates/holmes-core/src/ledger.rs:682-755 | Each of the seven experiment events is accepted if and only if the stored status is one it may leave, the revision is current, a start raises the attempt, and an observation cites stored evidence. |
| LedgerAcceptance.EnvelopeRefused | crates/holmes-core/src/ledger.rs:770-801 | An event out of turn is accepted if and only if it is a repetition; otherwise the first of case, known id, sequence number and schema that is wrong is reported, with the expected and the actual value. |
| LedgerAcceptance.NewEntityRefused | crates/holmes-core/src/ledger.rs:635-665 | A refused new entity in turn reports a wrong kind, then a conflict with revision 1 of its own id, then an invalid event. |
| LedgerAcceptance.NoteRefused | crates/holmes-core/src/ledger.rs:1146-1195 | A refused note reports a wrong kind, then an unknown hypothesis, then a conflict with its current revision, then the rest. |
| LedgerAcceptance.ChangeRefused | crates/holmes-core/src/ledger.rs:1196-1356 | A refused request or change reports a wrong kind, then what makes it meaningless, then the stored revision against the one it read, then the announced one, then the rest. |
| LedgerAcceptance.MoveRefused | crates/holmes-core/src/ledger.rs:682-755 | A refused move reports a wrong kind or unknown experiment, then the stored revision against the one it read, then the announced one, then the rest. |
| LedgerAcceptance.FirstRefusalDecides | crates/holmes-core/src/ledger.rs:1406-1415 | A replay fails with an error if and only if some event is refused with it after everything before was accepted. |
| LedgerEffects.NewEntityIsStored | crates/holmes-core/src/ledger.rs:804-1397 | Each event that brings an entity files its payload unchanged under its id; the three notes change no table; nothing else changes but version, sequence number and applied ids. |
| LedgerEffects.ExperimentIsMoved | crates/holmes-core/src/ledger.rs:676-760 | For each of the seven experiment events, every field of the experiment: status and time of the event, the next revision, the task of a queued, the attempt of a started, the evidence of an observed one, and all else as before. |
| LedgerEffects.HypothesisIsChanged | crates/holmes-core/src/ledger.rs:1278-1356 | For resolution, reopening and supersession, every field of the hypothesis: status and time that the event decides, the next revision, all else as before; and the resolution is stored. |
| LedgerLog.ProjectionIsLastWord | crates/holmes-core/src/ledger.rs:803-1415 | After every accepted stream, each part of each stored entity (claim, plan, status and time, task, attempt, evidence list, and all other records) is what the last first delivery that speaks of it says. |
| LedgerLog.NothingIsInvented | crates/holmes-core/src/ledger.rs:803-1415 | Something is stored under an id if and only if a first delivery of the stream said so. |
| LedgerLog.SaidOnce | crates/holmes-core/src/ledger.rs:824-1391 | Of all first deliveries at most one brings a claim, plan, prediction, piece of evidence, resolution, contradiction or commit with a given id. |
| LedgerLog.ObservedAsReported | crates/holmes-core/src/ledger.rs:748-758 | An experiment that ends up Observed has the evidence list and time of the one first delivery that reported its observation. |
| LedgerReplay.FoldConcat | crates/holmes-core/src/ledger.rs:1411-1413 | A stream may be cut anywhere and replayed in two parts. |
| LedgerReplay.StepBookkeeping | crates/holmes-core/src/ledger.rs:1400-1402 | What an accepted event does to case, sequence number and applied ids, and that a repetition changes nothing. |
| LedgerReplay.FoldCovers | crates/holmes-core/src/ledger.rs:777-793 | Every event of an accepted stream is afterwards a repetition. |
| LedgerReplay.RedeliveryIsIdempotent | crates/holmes-core/src/ledger.rs:762-793 | At-least-once replay: from any earlier point, onto the projection of any later one, the stream ends in the same projection. |
| LedgerReplay.RepeatsAreIgnored | crates/holmes-core/src/ledger.rs:777-785 | A stream is accepted if and only if its first deliveries are and its repetitions carry an old number of this case; then both give the same projection. |
| LedgerReplay.RepeatedMeaningIsRefused | crates/holmes-core/src/ledger.rs:1130-1137 | A link event that says what a stored link says is accepted if and only if it is the repetition of an applied event. |
| LedgerReplay.AlwaysUnfolds | crates/holmes-core/src/ledger.rs:1411-1413 | A property holds all along a run if and only if it holds at the start and all along the rest. |
| LedgerInvariants.ReachableIsSound | crates/holmes-core/src/ledger.rs:803-1403 | Every producible projection is sound: entities filed under their id and case, no dangling reference, version equal to sequence number and to the count of applied ids. |
| LedgerInvariants.WrittenKeepsTables | crates/holmes-core/src/ledger.rs:803-1398 | Each of the twenty writes keeps the tables sound and removes or rewrites nothing but life-cycle fields and links. |
| LedgerInvariants.StepKeepsSound | crates/holmes-core/src/ledger.rs:766-1404 | One accepted event keeps the projection sound. |
| LedgerInvariants.EvidenceChain | crates/holmes-core/src/ledger.rs:1104-1129 | A link that names a prediction cites evidence of an experiment which tests that prediction of that hypothesis. |
| LedgerInvariants.ObservedEvidenceExists | crates/holmes-core/src/ledger.rs:748-754 | The evidence an Observed experiment lists is stored, in the same case. |
| LedgerInvariants.NothingTwice | crates/holmes-core/src/ledger.rs:912-920 | No two links mean the same, no two experiments share an idempotency key, and at most one commit was made per version, each below the present one. |
| LedgerInvariants.VersionCountsEvents | crates/holmes-core/src/ledger.rs:1400-1402 | The version counts the distinct event ids of the stream, and those are the applied ids. |
| LedgerInvariants.ResolutionsStayInCase | docs/architecture/hypothesis-ledger-v2.md:1692 | Every link a resolution cites, and the evidence behind it, is stored and of the same case. |
| LedgerInvariants.RecordsAreKept | docs/architecture/hypothesis-ledger-v2.md:520 | Evidence, resolutions, predictions, contradictions and commits are never changed or lost, nor are claims and plans but for their life cycle. |
| LedgerInvariants.ListedEvidenceIsKeptExactlyWhen | crates/holmes-core/src/ledger.rs:874-930 | A step keeps all evidence that experiments list stored if and only if it does not plan an experiment that lists something unknown. |
| LedgerInvariants.PlanMayListUnknownEvidence | crates/holmes-core/src/ledger.rs:874-930 | A first event that plans an experiment with evidence nobody recorded, and is accepted. |
| LedgerLifecycle.SettledByResolution | docs/architecture/hypothesis-ledger-v2.md:1691 | A Confirmed, Rejected or Inconclusive hypothesis has a resolution that says so. |
| LedgerLifecycle.RevisionCountsResolutions | crates/holmes-core/src/ledger.rs:1228-1356 | Resolved n times: Open means revision 2n+1; Confirmed, Rejected or Inconclusive means 2n with n at least 1; Superseded means 2n to 2n+2. |
| LedgerLifecycle.AtMostOneDecision | crates/holmes-core/src/ledger.rs:1258-1290 | At most one resolution of a hypothesis is not Inconclusive, and a settled status is the one it decided: never both Confirmed and Rejected. |
| LedgerLifecycle.SupersedableExactlyWhen | crates/holmes-core/src/ledger.rs:1324-1356 | Given another known hypothesis, the addressed event supersedes a hypothesis if and only if it is not superseded yet, Inconclusive ones included. |
| LedgerConcurrency.MoveSpendsBudget | crates/holmes-core/src/ledger.rs:700-757 | Each accepted transition lowers the stage or, in the same stage, raises the attempt. |
| LedgerConcurrency.OneWinnerPerRevision | crates/holmes-core/src/ledger.rs:687-698 | In every accepted stream at most one event based on a given revision of a hypothesis or experiment takes effect. |
| LedgerConcurrency.AttemptsIncrease | crates/holmes-core/src/ledger.rs:730-747 | Attempts of one experiment strictly increase from its plan through all its starts. |
| LedgerConcurrency.RevisionCountsMoves | crates/holmes-core/src/ledger.rs:756-758 | The revision of an experiment counts its transitions, and its attempt is the planned one or that of a start. |
| LedgerConcurrency.ExperimentsTerminate | crates/holmes-core/src/ledger.rs:700-760 | An experiment planned with attempt a moves at most MAX - a + 2 times, a terminal one never changes, and an Observed one was started with a higher attempt. |
| LedgerConcurrency.StartableExactlyWhen | crates/holmes-core/src/ledger.rs:730-740 | An experiment not started yet can be started if and only if its planned attempt is not the largest. |
| LedgerConcurrency.SpentAttemptsNeverLaunch | crates/holmes-core/src/ledger.rs:730-740 | An experiment planned with the largest attempt is never started nor observed, in any stream. |
| LedgerConcurrency.RevisionsStayBelowVersion | crates/holmes-core/src/ledger.rs:694-698 | In every producible projection all revisions lie between one and the version, so none overflows before the sequence number does. |
| LedgerConcurrency.SupersededIsFinal | crates/holmes-core/src/ledger.rs:1350-1352 | A superseded hypothesis is never changed by any later stream. |
| LedgerConcurrency.RefusalLeaksExactlyWhen | crates/holmes-core/src/ledger.rs:742-755 | A refused transition has changed the table if and only if unknown evidence came with an attempt or a different task, and then in exactly those two fields of one experiment. |
| LedgerConcurrency.RefusalCanLeak | crates/holmes-core/src/ledger.rs:742-755 | A concrete refused transition that raises the attempt all the same. |
| LedgerConcurrency.ReducerNeverLeaks | crates/holmes-core/src/ledger.rs:931-1059 | No event of the reducer builds such a transition. |
| LedgerProvenance.OrdinaryStepKeepsAcyclic | crates/holmes-core/src/ledger.rs:803-1398 | A step that puts no link keeps the reference graph acyclic, and removes no circle either; with and without links in the graph. |
| LedgerProvenance.LinkStepIsAcyclicExactlyWhen | crates/holmes-core/src/ledger.rs:1130-1144 | After a link event the graph is acyclic if and only if before it every circle passed through that link id and nothing the link names led to it. |
| LedgerProvenance.ProvenanceIsAcyclic | crates/holmes-core/src/ledger.rs:822-1294 | No chain of references between hypotheses, predictions, experiments, evidence and resolutions returns to its start, in any producible projection. |
| LedgerProvenance.RunStaysAcyclicExactlyWhen | crates/holmes-core/src/ledger.rs:1098-1145 | Along an accepted stream nothing ever comes to rest on itself, cited links included, if and only if every link event finds that nothing its link names leads to that link id. |
| LedgerProvenance.FreshLinkPassesGuard | crates/holmes-core/src/ledger.rs:1144 | A link id that is not in use passes this guard. |
| LedgerProvenance.CitedProvenanceIsAcyclic | crates/holmes-core/src/ledger.rs:1130-1144 | In particular, if different link events have different link ids, no chain through cited links returns to its start. |
| LedgerOwnership.LinksSurviveExactlyWhenFresh | crates/holmes-core/src/ledger.rs:1130-1144 | An accepted link event keeps all stored links if and only if its link id is new. |
| LedgerOwnership.OwnershipIsKeptExactlyWhen | crates/holmes-core/src/ledger.rs:1144 | A step keeps cited links with their hypothesis if and only if it does not put a cited link id to use for another hypothesis. |
| LedgerOwnership.RunStaysOwnedExactlyWhen | crates/holmes-core/src/ledger.rs:1098-1145 | Along an accepted stream every cited link stays with the hypothesis of its citing records if and only if no link event hands a cited id to another hypothesis. |
| LedgerOwnership.CitationsStayOwned | crates/holmes-core/src/ledger.rs:1261-1276 | In particular, with distinct link ids every cited link belongs for ever to the hypothesis of the record citing it. |
| LedgerWitness.ReusedLinkIdClosesACircle | crates/holmes-core/src/ledger.rs:1130-1144 | An accepted stream of eight events that reuses one link id: afterwards a claim rests on itself and a resolution cites a link of another hypothesis. |
| Conversation.Pending.ResolvePendingCall | crates/holmes-cli/src/chat.rs:327-340 | The outcome answers its own id if that is pending, else the oldest pending unnamed call of its tool; what goes on waiting is exact. |
| Conversation.AttachToLast | crates/holmes-cli/src/chat.rs:223-239 | A call is added behind the calls of the assistant message that ends the list, or starts a message of its own; all else stays. |
| Conversation.FindDanglingCalls | crates/holmes-cli/src/chat.rs:295-317 | The list of places and results to splice in. |
| Conversation.CloseDanglingCalls | crates/holmes-cli/src/chat.rs:287-321 | Splicing from the back gives the list in which each message is followed by its missing results. |
| Conversation.MindPalace.Ingest | crates/holmes-cli/src/chat.rs:193 | The memory gets the event. |
| Conversation.ReplayEvent | crates/holmes-cli/src/chat.rs:194-284 | One event changes messages, waiting calls and mode as it does on values: the text, call, result, blocked text or mode that the event carries, and nothing else. |
| Conversation.ReplayEventsIntoRuntime | crates/holmes-cli/src/chat.rs:179-322 | The in-place replay and repair give the conversation rebuilt on values, the mode is the one set last or the one at the start, and the memory gets every event in order. |
| ConversationLegality.LegalIsLegalTrace | crates/holmes-cli/src/chat.rs:287-288 | Legality by positions (each call has exactly one result, later) is legality of the trace of each id. |
| ConversationLegality.RepairVerdict | crates/holmes-cli/src/chat.rs:287-321 | The repair makes an id legal if and only if it was legal or is one open call without any result. |
| ConversationShapes.RebuiltIsLegalExactlyWhen | crates/holmes-cli/src/chat.rs:179-322 | For every session and every log the rebuilt conversation is legal if and only if, for each id, the calls that ask with it and the outcomes that answer it, made-up ids included, come in an order the repair can finish. |
| ConversationShapes.RepairableMeaning | crates/holmes-cli/src/chat.rs:287-321 | That order is: no call after a result, no second result, and no second call left open. |
| ConversationShapes.CollisionIsIllegal | crates/holmes-cli/src/chat.rs:253 | A log with one call, whose id is the one made up for an earlier orphan, is not rebuilt legally. |
| ConversationLegality.RebuiltIsLegalExactlyWhenClean | crates/holmes-cli/src/chat.rs:179-322 | With fresh drawn ids, and no logged call in the class of made-up ids, the rebuilt conversation is legal if and only if the log, read by its ids alone, never calls an answered id again and leaves none open that was called twice. |
| ConversationLegality.DistinctCallsRebuildLegally | crates/holmes-cli/src/chat.rs:179-322 | Under the same freshness, a log whose calls have different ids is always rebuilt legally. |
| ConversationLegality.RepeatedCallStaysIllegal | crates/holmes-cli/src/chat.rs:303-321 | A log that calls one id twice without an answer is not rebuilt legally. |
| ConversationLegality.RepairOnlyInserts | crates/holmes-cli/src/chat.rs:303-321 | Deleting the synthesized results gives back the list before the repair. |
| ConversationLegality.RepairIsIdempotent | crates/holmes-cli/src/chat.rs:287-321 | A second repair changes nothing. |
| ConversationContent.RebuiltTellsTheLog | crates/holmes-cli/src/chat.rs:192-321 | The rebuilt conversation, without what the repair put in, says exactly what the session said and then what the log says, item by item: user and assistant texts, calls with id, name and arguments, results with name and content or blocked text. |
| ConversationContent.RebuiltKeepsTheDialogue | crates/holmes-cli/src/chat.rs:192-321 | Leaving out tool results, the rebuilt conversation says the same in the same order, whatever kind of item one looks for. |
| ConversationContent.RebuiltKeepsTextsAndCalls | crates/holmes-cli/src/chat.rs:195-239 | In particular the texts of the user, those of the assistant, and the calls are those of the session followed by those of the log. |
| ConversationContent.LastModeCounts | crates/holmes-cli/src/chat.rs:281-283 | The mode after the log is the last one it sets. |
| ConversationContent.ModeIsKept | crates/holmes-cli/src/chat.rs:281-283 | A log that sets no mode keeps the one at the start. |
| ConversationLayout.RunIsRegular | crates/holmes-cli/src/chat.rs:194-284 | A replay leaves the session's messages as they are, but for calls that join the last, and adds only texts, calls and results; calls get a message of their own only where no assistant message ends the list; a result carries the id of an earlier call or the made-up one of its position. |
| ConversationLayout.RepairedLayout | crates/holmes-cli/src/chat.rs:290-321 | Behind each message come the results of exactly those of its calls that no tool message answers, in call order, with the call's id and name and the fixed text, and then the next message. |
| ConversationLayout.DecimalIsRead | crates/holmes-cli/src/chat.rs:253 | The number in a made-up id is in ordinary decimal notation. |
| LegacyQueues.TakePopsItsQueue | crates/holmes-cli/src/chat.rs:336-339 | An unnamed outcome answers the head of its tool's queue, leaves other tools alone, and takes nothing from an empty queue. |
| LegacyQueues.EnqueueAppends | crates/holmes-cli/src/chat.rs:219-221 | A call without id goes to the end of its own tool's queue. |
| LegacyQueues.DequeRefinesQueues | crates/holmes-cli/src/chat.rs:324-340 | On every run of calls and outcomes, with and without ids, the searched deque and map give the same answers as one queue per tool and a set of open ids. |
| SessionTree.SortByRecency | crates/holmes-cli/src/chat.rs:468-476 | The sorted list has the same indexes. |
| SessionTree.SortIsStableOrder | crates/holmes-cli/src/chat.rs:468-476 | The sort is by falling recency and keeps the order of equals. |
| SessionTreeWalk.GroupByParent | crates/holmes-cli/src/chat.rs:461-476 | Each parent's list holds exactly its sessions, most recent first. |
| SessionTree.ChildrenAreDetermined | crates/holmes-cli/src/chat.rs:461-476 | Those lists are determined by the sessions. |
| SessionTreeWalk.TreeWalk.PushTreeRow | crates/holmes-cli/src/tui.rs:1582-1658 | The recursive walk terminates for any parents, also circular ones, and adds exactly the rows of the walk on values. |
| SessionTreeWalk.TreeWalk.PushAll | crates/holmes-cli/src/tui.rs:1560-1579 | Roots first, then the sessions that are left, in list order. |
| SessionTreeWalk.TreeRows | crates/holmes-cli/src/tui.rs:1543-1580 | The screen tree is that walk; it shows every id exactly once for any set of folded sessions. |
| SessionTreeWalk.PrintSessionTree | crates/holmes-cli/src/chat.rs:455-571 | The printed tree is that walk with nothing folded; it shows every id exactly once. |
| SessionTree.ForestIsShown | crates/holmes-cli/src/tui.rs:1560-1657 | For any parent relation every id is shown once, and a session reached from a root through unfolded ones is below its parent and its earlier siblings. |
| SessionTree.EachSessionOnce | crates/holmes-cli/src/chat.rs:494-499 | With distinct ids every session has exactly one row. |
| SessionTree.ListedForestIsRooted | crates/holmes-cli/src/chat.rs:480-499 | If all parents are listed and acyclic, every session is reached from a root. |
| SessionTree.ForestIsInOrder | crates/holmes-cli/src/chat.rs:558-570 | In such a forest every child is below its parent, and below every sibling that was active later, or as late and listed earlier; where no activity is known the start counts. |
| SessionTree.SubtreesStayTogether | crates/holmes-cli/src/tui.rs:1616-1657 | Depth first: all rows between a session and a child of it that a root reaches hang below it, too. |
| SessionTree.TheRestFollows | crates/holmes-cli/src/tui.rs:1560-1579 | The rooted sessions come first; each other row hangs from one of its kind, or shows the first listed session whose id was not shown yet. |
| SessionTree.NoRowIsIndented | crates/holmes-cli/src/chat.rs:520-557 | No row of any tree ever gets a prefix or a connector. |
| LineSplitter.DrainLines | crates/holmes-llm/src/client.rs:407-412 | Every complete line is handed on, and exactly what follows the last newline is kept. |
| LineSplitter.ReadAttempt | crates/holmes-llm/src/client.rs:399-446 | A read error interrupts; otherwise the joined chunks decide: an error frame is reported with its content, else a response without a stop reason is truncated, else it is returned. Only then is anything shown, namely the text of the whole body, so chunking does not matter. |
| LineSplitter.RestHasNoNewline | crates/holmes-llm/src/client.rs:407-409 | What is carried between chunks never contains a newline. |
| LineSplitter.LinesOfConcat | crates/holmes-llm/src/client.rs:404-412 | A text that grows at the end only adds lines: finished lines stay, and the rest is continued. |
| LineSplitter.BodyTextIsLineByLine | crates/holmes-llm/src/client.rs:407-427 | The text is the extractor mapped over the lines of the body, with the last one unless it is all whitespace. |
| Text.TrimMeaning | crates/holmes-core/src/ledger.rs:816 | Trimming takes whitespace off both ends until neither has any; nothing is left if and only if all is whitespace. |
| TokenBucket.Bucket.constructor | crates/holmes-llm/src/rate_limiter.rs:24-31 | A new bucket is full and its rate is a sixtieth of its capacity. |
| TokenBucket.Bucket.Refill | crates/holmes-llm/src/rate_limiter.rs:44-49 | The tokens after a refill, never above capacity. |
| TokenBucket.Bucket.Try | crates/holmes-llm/src/rate_limiter.rs:33-42 | The reply and the new tokens, by the time passed (none if the clock ran back), the rate and the capacity: granted with a whole token, else the exact wait, or none with a zero limit. |
| TokenBucket.Bucket.Acquire | crates/holmes-llm/src/rate_limiter.rs:75-101 | A lone caller is granted at once or, above a zero limit, right after the wait it was told: at most two tries, at exactly that time. |
| TokenBucket.StaysValid | crates/holmes-llm/src/rate_limiter.rs:33-49 | Tokens stay between zero and capacity, and the wait is the missing part of a token over the rate. |
| TokenBucket.WaitSuffices | crates/holmes-llm/src/rate_limiter.rs:38-40 | A retry after the returned wait succeeds. |
| TokenBucket.StarvesExactlyWhenZero | crates/holmes-llm/src/rate_limiter.rs:33-49 | No call is ever granted, at whatever times calls are made, if and only if the limit is zero. |
| TokenBucket.GrantedExactlyWhenAffordable | crates/holmes-llm/src/rate_limiter.rs:33-49 | After any calls by anyone a call is granted if and only if it is paid for by the first tokens and the inflow, and fits the window of every earlier call. |
| TokenBucket.RetryGrantedExactlyWhen | crates/holmes-llm/src/rate_limiter.rs:80-96 | A caller that was told to wait and competes with others is granted on retry if and only if their grants are at most the inflow since the told time, and with its own fit every window. |
| TokenBucket.GrantsArePaid | crates/holmes-llm/src/rate_limiter.rs:33-49 | Grants never exceed the tokens at hand plus the inflow. |
| TokenBucket.WindowBound | crates/holmes-llm/src/rate_limiter.rs:33-49 | In any stretch of calls at most capacity plus rate times its length are granted. |
| BackgroundTasks.Tasks.Register | crates/holmes-core/src/background.rs:207-219 | A task enters the registry running and undelivered. |
| BackgroundTasks.Tasks.Complete | crates/holmes-core/src/background.rs:223-227 | A known task is Completed with exactly the given outcome and else unchanged; an unknown id is ignored. |
| BackgroundTasks.Tasks.TakeFinishedUndelivered | crates/holmes-core/src/background.rs:231-247 | Returns each finished, undelivered task once with its outcome, and marks exactly those delivered; nothing else changes. |
| BackgroundTasks.Tasks.RunningCount | crates/holmes-core/src/background.rs:253-258 | The number of running tasks. |
| BackgroundTasks.KnownIsRegistered | crates/holmes-core/src/background.rs:207-247 | A task is known if and only if it was registered. |
| BackgroundTasks.TasksAdvance | crates/holmes-core/src/background.rs:207-247 | Under any interleaving a task stays, completed stays completed, delivered stays delivered. |
| BackgroundTasks.DeliveredIsCompleted | crates/holmes-core/src/background.rs:237-238 | Delivered implies completed. |
| BackgroundTasks.DeliveredAtMostOnce | crates/holmes-core/src/background.rs:229-238 | No two drains deliver the same task. |
| BackgroundTasks.CompletedIsDelivered | crates/holmes-core/src/background.rs:231-247 | A task completed before a drain has been delivered when that drain ends. |
| BackgroundTasks.AsRegistered | crates/holmes-core/src/background.rs:207-227 | Under any interleaving a task keeps the description and time of its registration. |
| BackgroundTasks.StatusIsLastCompletion | crates/holmes-core/src/background.rs:223-227 | Under any interleaving a task is Completed with an outcome if and only if its last completion after its registration carried it, and Running if and only if there was none. |
| BackgroundTasks.DeliveredAsCompleted | crates/holmes-core/src/background.rs:231-247 | Every task a drain delivers carries the outcome of its last completion and the description of its registration. |
| BackgroundTasks.RegistrationsAreKept | crates/holmes-core/src/background.rs:207-258 | Running plus completed equals the number of registrations. |
| SubagentResult.BuildAgentTaskResult | crates/holmes-core/src/subagent.rs:136-258 | Failed and Cancelled exactly for such runs, Completed exactly for a finished run without unsatisfied goal; the given answer or the text of the stop; the k-th finding, evidence, validation and open goal are those of the k-th such event; tool calls counted, turns and tokens the least bounds. |
| SubagentResult.Conclude | crates/holmes-core/src/subagent.rs:206-239 | Status, summary and remaining work for each way a run can stop, a given answer always preferred. |
| SubagentResult.FilesInFirstUseOrder | crates/holmes-core/src/subagent.rs:190-201 | The changed files are exactly the written paths, each once, ordered by first use. |
| SubagentResult.FilesAreWritten | crates/holmes-core/src/subagent.rs:190-201 | A path is listed if and only if a write or edit tool was called with it. |
| SubagentResult.CheckCompletion | crates/holmes-core/src/subagent.rs:277-292 | The defects of a completion claim. |
| SubagentResult.CheckReferences | crates/holmes-core/src/subagent.rs:305-316 | One defect for every reference to unknown evidence. |
| SubagentResult.VerifyAgentTaskResult | crates/holmes-core/src/subagent.rs:270-322 | All defects, in order. |
| SubagentResult.WrapForParent | crates/holmes-core/src/subagent.rs:336-351 | The defects of the given result; one that claims completion with defects becomes Partial, its remaining work followed by one note per defect, and any other stays as it is. |
| SubagentResult.DefectsInOrder | crates/holmes-core/src/subagent.rs:270-317 | The defects are, in this order and with these texts: a blank or placeholder summary; for a claimed completion each failed validation, open work, findings without evidence; an early stop without remaining work; each reference to unknown evidence. |
| SubagentResult.FindingsHaveEvidence | crates/holmes-core/src/subagent.rs:162-171 | Built findings never refer to unknown evidence. |
| SubagentResult.GoalsMatchValidations | crates/holmes-core/src/subagent.rs:173-186 | A built result has open goals if and only if a validation failed. |
| SubagentResult.BuiltResultsVerify | crates/holmes-core/src/subagent.rs:206-316 | The verifier faults a built result if and only if its trimmed summary is empty or the placeholder, and then for nothing else. |
| SubagentResult.WrappingSettles | crates/holmes-core/src/subagent.rs:333-346 | What reaches the parent as Completed has no defect, and wrapping again changes nothing. |
| Utf8Truncation.DecodeOfUtf8 | crates/holmes-core/src/tool_types.rs:9-19 | Every text is recovered from its UTF-8 encoding. |
| Utf8Truncation.Utf8OfDecode | crates/holmes-core/src/tool_types.rs:9-19 | Every valid byte string is the encoding of what it decodes to. |
| Utf8Truncation.TruncateStr | crates/holmes-core/src/tool_types.rs:10-19 | The result ends at the largest character boundary within the limit, and the loop runs once per byte given up. |
| Utf8Truncation.BoundaryEndsPrefix | crates/holmes-core/src/tool_types.rs:15 | Every character boundary is the end of a prefix of whole characters. |
| Utf8Truncation.CutIsLongestPrefix | crates/holmes-core/src/tool_types.rs:10-19 | For every valid string the cut decodes to the longest prefix of characters that fits, after at most three rounds. |

## Left out

- LedgerTypes.Hypothesis: fields that the reducer only copies (priority, actors, creation times, hashes and the like, here and in the other entities) travel in `details`; events carry only what the reducer reads, so the gaps and reasons of notes are absent.
- LedgerStore.Ledger.ApplyLedgerEvent: does not model the wording of the reason inside an invalid-event error, only its kind and event id. Numbers are unbounded; by `LedgerConcurrency.RevisionsStayBelowVersion` no 64-bit revision overflows before the sequence number, which counts the events, would.
- LedgerReplay.RepeatsAreIgnored: says nothing about a repeated id whose content differs from the first delivery except that it is skipped, as in the code.
- ConversationLegality.RebuiltIsLegalExactlyWhenClean: reads the log by its own ids only, and so excludes three classes of input: sessions that already hold tool traffic (its caller starts from a system prompt, crates/holmes-cli/src/chat.rs:363-365), drawn ids that are not new, and logged calls whose id starts like one made up for an orphan. `ConversationShapes.RebuiltIsLegalExactlyWhen` covers them.
- ConversationLegality.DistinctCallsRebuildLegally: excludes the same inputs; `ConversationShapes.CollisionIsIllegal` shows that the last class has to be excluded.
- Conversation.ReplayEventsIntoRuntime: takes drawn call ids as an input, keeps arguments as their text, and knows of the memory only which events it was given.
- SessionTreeWalk.TreeRows: leaves out the text of a line (title, mode, relative time, fold and current markers) and the filtered list that a non-empty query shows instead.
- SessionTreeWalk.PrintSessionTree: leaves out the text of a line, the preview line, and the headings around the tree.
- LineSplitter.ReadAttempt: the extractor of text from a line, the search for an error frame, the parser and its stop reason are arbitrary functions. It starts from decoded chunks; a character cut by a chunk border is replaced by the lossy decoder before this code sees it.
- TokenBucket.Bucket.Acquire: models a caller that nobody races; what a racing caller meets at its retry is `TokenBucket.RetryGrantedExactlyWhen`. The concurrency semaphore and unknown providers are absent.
- TokenBucket.Bucket.Refill: computes with exact reals instead of rounded floating point, and the wait is not rounded to nanoseconds.
- BackgroundTasks.Tasks.Register: the generated id and the time are inputs; that ids are new is a hypothesis of the lemmas that need it. Cancellation flags, snapshots and handles are absent, and the lock appears as the atomicity of each operation.
- SubagentResult.BuildAgentTaskResult: takes the severity as its lower-case name and the path argument as already looked up; counters do not overflow.
- Utf8Truncation.TruncateStr: `truncate_with_note`, which appends a fixed note to a cut text, is absent.
- The failover chain, provider health, SQLite stores, task sinks and the scheduler keep their state in databases and remote services; what they guarantee is a matter of those.
- The browser, HTTP and server-sent events, tool protocols and hooks call foreign programs, whose behaviour is not in this repository.
- Rendering, key handling, commands, reports and configuration map one input to one output and keep no state between calls that could be an invariant.
- Guards, the goal loop, metrics and execution contexts combine their inputs by first match, counting or minimum, and no guarantee of the modelled parts rests on them.
