# Verification of the AviaSurveil360 workflow core

A Dafny model of the parts of the repository whose rules are hardest to keep: the migration runner and the ordering repair
with its guards, the PDF and CSV writers, the approval chain and what planning and reports build on it, the checklist
packages and their versions, and the life of a Finding. Code that computes is modelled as functions; code that updates records
in place is modelled a second time as classes whose methods are proved equal to those functions, and the promises are proved
about the functions over every input, every run or every interleaving.

`dafny verify dfyconfig.toml` checks the whole project.

| file | what it models |
|---|---|
| MigrationProtocol, MigrationApply | concurrent runners with crashes and lost replies; one call of the runner and the loading of the embedded files |
| CandidateLineage, MappingOrder | the two guards on governed candidates; the recursive walk and the ordering repair |
| TextWrap, CsvExport | cleaning and greedy wrapping in both forms; the CSV cells and a reader for RFC 4180 |
| PdfSyntax, PdfContent, PdfFile, PdfDocument | the documents the writers produce and a reader for them, from characters to page tree |
| PdfWriter, PdfBytes, PdfHeights | the two writers as the program runs them; byte positions; heights on the page |
| ApprovalChain, ApprovalDecisions, ApprovalRecords, PlanningApproval | decisions on a chain of roles, what each needs and leaves, and in place; planning items behind the Finance screen |
| PlanningRelease, PlanningAudits | preparation steps on many items and the audit each one yields; what the audit says of its item |
| ReportPipeline, ReportDecisions | report decisions, queues and what the Service Provider sees; each decision written out |
| UniqueIds, ChecklistPackages, ChecklistObjects, ChecklistVersions, ChecklistMeaning | the id searches; copy on write over a shared question bank; the same on section objects; version publication; each operation written out |
| FindingLifecycle, FindingTexts, Reminders | CAP, Evidence and closure with both projections; who reads which text; deterministic reminders |
| RiskProjection | the risk dashboard's tables |
| Basics, Decimals, Texts | shared results, numerals and text operations |

## Where the code differs from what one might expect

Each point is a lemma with a concrete or general input, and beside it the exact condition under which the expected rule holds.

- `forward_ed` is held back for Finance only at the GM stage, and a plain `forward` at Finance leaves the budget review unset
  (`PlanningApproval.ForwardEdSkipsFinance`, `PlainForwardAtFinance`; exact condition in `DecisionKeepsBudgeted`, over runs in
  `BudgetedExactly`; for the order of approvals in `ApprovalChain.StepEarned`).
- A Final Report returned by the Executive Director is in no queue and no decision is accepted on it
  (`ReportPipeline.ReturnedFinalIsStuck`; exactly these, `StuckExactly` and `AtDeskMeansQueued`); the Lead's submit
  handlers look at no lock (`SubmissionSound`).
- Duplicating a package shares its open drafts (`ChecklistPackages.DuplicateSound`, `SharedDraftChangesPublished`; a run
  that does so, `SharedDraftRun`).
- An ordinary draft may be updated into a generated candidate with any existing draft as its root
  (`CandidateLineage.GainingARunBreaksLineage`; exactly when that does harm, `GainingARunExactly`).
- After planning id 999 the next id is PLAN-2026-INS-1000 every time (`PlanningRelease.NextIdIsNew`).
- A CAP return refused for want of a comment still keeps the internal note (`FindingLifecycle.RefusedReturnKeepsNote`); a
  Finding that needs no Evidence is left without an offered step (`StrandedExactly`); and a CAP step off the offered path can
  part the stored status from the records (`UnofferedCapDisagrees`; exactly when, `AgreesAfter` and `StatusAgreesExactly`).
- The Final Report writer can place lines below the page (`PdfHeights.SummaryRunsOff`, `TitleRunsOff`; exactly when,
  `DocumentStaysOnPages`).
- A department named like a property every object inherits is missing from the department table
  (`RiskProjection.InheritedNameIsLost`; exactly when, `TableAddsUp`).
- Ordinals the repair does not reach can collide with those it hands out (`MappingOrder.StaleOrdinalCollides`; exactly when,
  `ConstraintsAcceptExactly`).

## Model

| member | source | states |
|---|---|---|
| MigrationProtocol.LedgerAndSchemaAgree | apps/api/migrations/migrations.go:28-85 | After any run of any number of concurrent runners, with any interleaving, crash, rollback or lost commit reply, the ledger is exactly 1..k, the schema is migrations 1..k each applied once in order, and k never falls |
| MigrationProtocol.StartsAnywhere | apps/api/migrations/migrations.go:28-85 | Runs start from a database at any version and with any number of runners |
| MigrationProtocol.NilMeansLatest | apps/api/migrations/migrations.go:57-85 | A runner that returned nil saw version 57, and the database holds 1..57 from then on |
| MigrationProtocol.NewerDatabaseRefused | apps/api/migrations/migrations.go:49-80 | A database already beyond 57 is never touched and no runner reports success on it |
| MigrationProtocol.OneRunnerInside | apps/api/migrations/migrations.go:34-37 | Two live connections are never inside the locked part together |
| MigrationProtocol.RetryCanFinish | apps/api/migrations/migrations.go:28-85 | However earlier runners failed, once the lock is free some schedule takes a waiting runner to nil with 1..57 in place |
| MigrationProtocol.FaultsStrike | apps/api/migrations/migrations.go:28-85 | What these runs range over: a process may stop, a connection end, a call be refused or its reply be lost at any point, and a COMMIT under way land or abort as a whole; where each error leads the runner |
| MigrationApply.Load | apps/api/migrations/migrations.go:950-985 | Loading succeeds exactly when the embedded files are versions 1..57, one file each, and then lists them in ascending order |
| MigrationApply.NameGivesVersion | apps/api/migrations/migrations.go:958-970 | A file is taken for version n when its name begins with that number, padded or not, and an underscore |
| MigrationApply.BadNamesRefused | apps/api/migrations/migrations.go:958-972 | A file without an underscore, with something else than a number before it, or that cannot be read is an error |
| MigrationApply.SignedNames | apps/api/migrations/migrations.go:965-970 | A signed number is read with its sign |
| MigrationApply.FilesTaken | apps/api/migrations/migrations.go:955-960 | Only files that end in .up.sql are read, and no directories |
| MigrationApply.CompleteSetSorts | apps/api/migrations/migrations.go:974-983 | Sorting the parsed files gives the sequence 1..57 exactly for the complete set: two ascending lists with the same elements are equal |
| MigrationApply.PendingExactly | apps/api/migrations/migrations.go:57-80 | The loop over pending migrations gets through exactly when no pending version fails and no commit reply is lost; otherwise it stops right before (or, for a lost reply, right after) the first such version |
| MigrationApply.MigrationDatabase.ApplyOne | apps/api/migrations/migrations.go:61-76 | One transaction leaves both the schema and the ledger changed, or neither; a lost reply reports failure with both changed |
| MigrationApply.MigrationDatabase.ApplyPending | apps/api/migrations/migrations.go:57-80 | The loop keeps ledger and schema a common gap-free prefix, skips versions already there, and ends where PendingExactly says |
| MigrationApply.MigrationDatabase.Apply | apps/api/migrations/migrations.go:28-85 | One call applies what is pending and nothing else; nil exactly when every step worked and the database ends at 57 |
| CandidateLineage.AcceptedChangeKeepsInv | apps/api/migrations/migrations.go:858-910 | Every insert or update the guards accept keeps each generated row linked to a generated predecessor of lower revision with the same root, run and template, or its own root; updates keep everything but the status |
| CandidateLineage.LineageKept | apps/api/migrations/migrations.go:858-910 | The same over whole runs of attempted changes in which no ordinary draft gains a run |
| CandidateLineage.GainingARunBreaksLineage | apps/api/migrations/migrations.go:889-889 | An ordinary draft updated into a generated candidate may name any other draft as its root: every constraint on the table holds, no guard stops it, and the lineage breaks |
| CandidateLineage.GainingARunExactly | apps/api/migrations/migrations.go:860-889 | Such an update keeps the lineage exactly when the new row links as an inserted one would have to |
| CandidateLineage.ChainEndsAtRoot | apps/api/migrations/migrations.go:864-869 | Following supersedes links lowers the revision at every step and ends at the row the candidate names as its root |
| CandidateLineage.WalkVisitsEachOnce | apps/api/migrations/migrations.go:557-575 | Each generated candidate is added by exactly one round of the recursive walk, the one equal to its depth, and nothing else is ever added |
| CandidateLineage.WalkEnds | apps/api/migrations/migrations.go:557-575 | No round beyond the number of rows adds anything, so the recursion stops |
| CandidateLineage.PredecessorFirst | apps/api/migrations/migrations.go:574-575 | In the walk's order a predecessor comes before its successors |
| CandidateLineage.CandidateTable.Insert | apps/api/migrations/migrations.go:858-874 | An insert changes the table as the guard allows, or refuses and changes nothing |
| CandidateLineage.CandidateTable.Update | apps/api/migrations/migrations.go:887-910 | The same for an update |
| CandidateLineage.RootInsertedExactly | apps/api/migrations/migrations.go:858-866 | A first revision is accepted exactly when it is presentable, there is room, it is its own root and its digest is the one its run produced |
| CandidateLineage.SuccessorInsertedExactly | apps/api/migrations/migrations.go:858-874 | A successor is accepted exactly when it is presentable, there is room, and its predecessor is an unsuperseded generated row of the same run, root and template, of lower version and revision |
| CandidateLineage.DraftInsertedExactly | apps/api/migrations/migrations.go:858-862 | An ordinary draft is accepted exactly when it has no lineage and there is room |
| CandidateLineage.NextRevisionAccepted | apps/api/migrations/migrations.go:866-869 | The next revision of any generated candidate without a successor is accepted, and stands one step further from the root |
| CandidateLineage.UpdatedExactly | apps/api/migrations/migrations.go:887-907 | A generated row changes exactly by the five status moves, and in nothing else |
| CandidateLineage.DraftUpdatedExactly | apps/api/migrations/migrations.go:858-910 | An ordinary draft is rewritten exactly when it stays without lineage, collides with no row, and nothing names the id it gives up |
| CandidateLineage.RunGoesOn | apps/api/migrations/migrations.go:858-910 | A run attempts its changes one after the other, and what is refused leaves the table as it was |
| CandidateLineage.NothingIsDeleted | apps/api/migrations/migrations.go:887-910 | Deleting a generated row is refused, deleting an ordinary draft skipped |
| MappingOrder.WalkSatisfiesEquations | apps/api/migrations/migrations.go:549-708 | The script, candidate by candidate, reaches the one state in which every candidate's ordinals are the repair of its predecessor's repaired ordinals, or raises |
| MappingOrder.ScriptSucceedsExactly | apps/api/migrations/migrations.go:549-708 | The script gets through exactly when, before the run, every generated candidate is recoverable: each mapping its own updates do not reach already has an ordinal, and the digest of its repaired order is the stored one |
| MappingOrder.RootFollowsArtifact | apps/api/migrations/migrations.go:577-587 | Each of a root's mappings gets the position of its first mention in the artifact |
| MappingOrder.SharedMappingsInherit | apps/api/migrations/migrations.go:588-594 | A mapping shared with the predecessor keeps the predecessor's ordinal |
| MappingOrder.NullStartMeansCovered | apps/api/migrations/migrations.go:650-658 | From a freshly added column the script can finish only if every mapping could be placed |
| MappingOrder.RepairedOrdinalsDistinct | apps/api/migrations/migrations.go:577-658 | For a revision forest of any depth each candidate whose chain could be placed has distinct, non-negative ordinals |
| MappingOrder.AcceptedExactly | apps/api/migrations/migrations.go:577-658 | For any ordinals found, NULL or stale: the repaired ordinals of one candidate satisfy NOT NULL, CHECK and UNIQUE exactly when the mappings the updates do not reach hold usable ordinals that are not handed out to others |
| MappingOrder.StaleOrdinalCollides | apps/api/migrations/migrations.go:577-587 | A root with distinct ordinals, one of its mappings not in the artifact, can end with one ordinal twice |
| MappingOrder.WalkIsRepairedFrom | apps/api/migrations/migrations.go:549-708 | A finished walk ends with the ordinals that repairing each candidate from its root down gives, on the stored candidates and the ordinals before the run alone |
| MappingOrder.ConstraintsAcceptExactly | apps/api/migrations/migrations.go:708-726 | For a finished repair of any forest from any ordinals the constraints put back accept every candidate exactly when, before the run, this holds of every candidate |
| MappingOrder.NewMappingsFollowReferences | apps/api/migrations/migrations.go:596-647 | New mappings come after the predecessor's maximum, in the order in which the questions first refer to them |
| MappingOrder.NewOrdinalsLeaveNoGap | apps/api/migrations/migrations.go:596-647 | The ordinals of new mappings follow the predecessor's maximum without a gap |
| MappingOrder.RepairIsIdempotent | apps/api/migrations/migrations.go:549-708 | A second run of the repair succeeds and changes nothing |
| MappingOrder.DamageIsUndone | apps/api/migrations/migrations.go:549-708 | Where every mapping can be placed the outcome does not depend on the ordinals found, so a damaged order is rebuilt exactly |
| MappingOrder.SnapshotTable.RepairCandidate | apps/api/migrations/migrations.go:577-648 | The updates of one candidate, in place: a root takes the artifact's order, a revision inherits and appends |
| MappingOrder.SnapshotTable.PredecessorMax | apps/api/migrations/migrations.go:596-600 | The predecessor's largest ordinal, or -1 |
| MappingOrder.SnapshotTable.Repair | apps/api/migrations/migrations.go:549-708 | The whole script ends as the walk says, or raises and leaves every ordinal as it was |
| TextWrap.SafeTextCleans | js/manager-workspaces.js:1524-1532 | Whatever the input, the cleaned text is printable ASCII with single inner blanks and none at the ends; cleaning a clean text changes nothing |
| TextWrap.CleaningKeepsWords | js/manager-workspaces.js:1524-1532 | Cleaning keeps all words in order, with nothing but the replacements, and puts one blank between them |
| TextWrap.ReplacedMeans | js/manager-workspaces.js:1524-1530 | Dashes and curly quotes become plain ones, everything else outside printable ASCII a blank |
| TextWrap.WrapLoop | js/app.js:5695-5712 | The Final Report's wrapping loop gives the same lines as the workspace's fold, for every input and limit |
| TextWrap.WrapSound | js/manager-workspaces.js:1538-1548 | The lines joined back with blanks are the cleaned text, and a line exceeds the limit only when it is a single word |
| TextWrap.WrapFewest | js/manager-workspaces.js:1538-1548 | No admissible way to split the words has fewer lines |
| CsvExport.RoundTrip | js/manager-workspaces.js:618-628 | Reading an export by section 2 of RFC 4180 gives back exactly the exported texts, quotes, commas and line breaks included, precisely when there is a row and no row is without cells |
| CsvExport.CellsComeBack | js/manager-workspaces.js:618-628 | Reading an export gives a table of the same shape: every text as it was, and nothing for a missing value |
| CsvExport.ExportedAsQuoted | js/app.js:914-936 | The file starts with a byte order mark and every field stands in quotes |
| CsvExport.ExportInjective | js/app.js:914-940 | Two tables that export to the same file are the same table |
| CsvExport.SameFileSameTable | js/manager-workspaces.js:618-628 | Tables without a missing value that export to the same file are the same table |
| PdfSyntax.ObjBack | js/manager-workspaces.js:1557-1574 | Every object of the kinds the writers print (names, numbers, references, arrays, dictionaries, nested to any depth) is read back exactly, whatever safe text follows |
| PdfContent.ThreeReplacesEscapeEach | js/manager-workspaces.js:1534-1536 | The three replacements one after the other escape each backslash and parenthesis exactly once |
| PdfContent.LiteralBack | js/manager-workspaces.js:1534-1536 | Reading a literal string by section 7.3.4.2 of ISO 32000-1 undoes the escaping |
| PdfContent.ContentBack | js/manager-workspaces.js:1561-1568 | Interpreting a page's content stream recovers every non-blank line with its font, size and position |
| PdfFile.BodyBack | js/manager-workspaces.js:1568-1579 | The object standing at an offset is read back exactly, stream data included: /Length is the stream's length |
| PdfFile.ObjectStands | js/manager-workspaces.js:1576-1579 | Each recorded offset is the position of that object's header |
| PdfFile.EntryBack | js/manager-workspaces.js:1581-1582 | Every cross-reference entry is exactly twenty characters and reads back as its offset |
| PdfFile.XrefBack | js/manager-workspaces.js:1580-1583 | Entering through startxref a reader finds the whole table, its size and the trailer's root |
| PdfFile.EveryObjectBack | js/manager-workspaces.js:1576-1584 | For any list of objects whose offsets fit ten digits, the table leads the reader to every object, and the object read is the one written |
| PdfDocument.ChunksFlatten | js/manager-workspaces.js:1555-1556 | The pages, one after the other, are the printed lines |
| PdfDocument.PageBack | js/manager-workspaces.js:1569-1573 | A page object named by /Kids leads to the right contents, resources and font |
| PdfDocument.PageSays | js/manager-workspaces.js:1569-1573 | A page has the media box 612 by 842 and Helvetica under the name its text uses |
| PdfDocument.DocumentBack | js/manager-workspaces.js:1557-1584 | A reader that knows only the file's text recovers every page: every non-blank line in order with its size and position |
| PdfDocument.ShortFits | js/manager-workspaces.js:1576-1583 | Every file under ten billion characters has offsets that fit |
| PdfDocument.TextBack | js/manager-workspaces.js:1550-1584 | End to end, for any source lines whose file stays under ten billion bytes: the text shown is exactly the wrapped lines, blank ones aside |
| PdfWriter.ContentOf | js/app.js:5743-5757 | The content loop with its falling y, for both writers |
| PdfWriter.BuildObjects | js/app.js:5732-5763 | The object list with the page list filled into its reserved place last |
| PdfWriter.Assemble | js/app.js:5765-5777 | Bodies, table and trailer grown step by step equal the file the reader reads |
| PdfWriter.BuildWorkspacePdf | js/manager-workspaces.js:1550-1584 | The workspace writer, default line and paging included, produces that document |
| PdfWriter.BuildFinalReportPdf | js/app.js:5714-5778 | The Final Report writer, with its own wrapping and paging loops, produces that document |
| PdfBytes.PositionsAreBytes | js/manager-workspaces.js:1574-1584 | Cutting the file after k characters is cutting it after k bytes of UTF-8, so offsets and lengths are byte counts |
| PdfHeights.StaysOnPageExactly | js/app.js:5739-5757 | For both writers and every page: all lines stand on the page exactly when the drops before the last line that is not blank leave at least 1 of the 792 |
| PdfHeights.LayoutMeans | js/app.js:5743-5757 | The size and the drop of each line: first line, headings, other lines and blank ones |
| PdfHeights.DocumentStaysOnPages | js/app.js:5714-5778 | What a reader shows of a written document stays on its pages exactly when each of its pages meets that condition |
| PdfHeights.LinesStayOnPage | js/app.js:5743-5757 | So lines always stay on the page with the workspace writer, and with the Final Report writer whenever a page has at most 32 headings |
| PdfHeights.HeadingsRunOff | js/app.js:5746-5757 | A later Final Report page of headings only places its last line at -48 |
| PdfHeights.SummaryRunsOff | js/reports.js:546-567 | Whatever a Final Report says before and after its executive summary, there is a summary, one source line, with which a reader is shown a line below the page |
| PdfHeights.TitleRunsOff | js/reports.js:565-567 | And there is such a title for any Finding, whatever its line says before the title and whatever the other lines are |
| ApprovalChain.StepEarned | js/approval.js:333-389 | An accepted decision keeps every stage behind the record passed by its own role exactly when it neither jumps over a stage nor carries an approval backwards |
| ApprovalChain.RunEarned | js/approval.js:333-389 | The same over whole runs, index in range included |
| ApprovalChain.ApprovedMeansEveryStageSigned | js/approval.js:283-389 | An approved record's history holds, in chain order, one advancing entry by each stage's own role, made after the last return to or before that stage |
| ApprovalChain.EarnedInOrder | js/approval.js:283-297 | The entries that passed the stages stand in chain order |
| ApprovalChain.PlainRunsAreOrderly | js/approval.js:216-229 | On a chain whose return roles point backwards every run without forward_ed and without a return override is such a run |
| ApprovalChain.DecideMoves | js/approval.js:283-389 | Where each decision leaves index and outcome, and which decisions advance |
| ApprovalDecisions.AcceptedExactly | js/approval.js:193-389 | A decision is accepted exactly from the owner of the current stage, with a reason where one is asked for, on the stages and items it is meant for |
| ApprovalDecisions.ReturnGoesTo | js/approval.js:216-229 | A return goes to the first stage of the role named by the decision, or else by the stage; without one as the policy says; and one stage back where no stage has the role |
| ApprovalDecisions.NotApprovedGoesTo | js/approval.js:299-331 | A budget that is not approved goes back to the role the stage names for it, or else to the manager |
| ApprovalDecisions.ReasonNoted | js/approval.js:299-346 | Returns, rejections and refused budgets are noted with actor, role and reason |
| ApprovalDecisions.CommentNoted | js/approval.js:283-297 | What goes on is noted with its comment: as an approval at the last stage, before it by decision and role |
| ApprovalDecisions.ReviewSays | js/approval.js:359-382 | The budget review left: Finance's verdict with its text and name, and otherwise the one there was |
| ApprovalDecisions.NothingElse | js/approval.js:333-389 | A decision changes index, outcome, history, review and status, and nothing else |
| ApprovalDecisions.StatusSays | js/approval.js:231-281 | The status shown: by kind and outcome, or by whose desk it is and whether the record came back |
| ApprovalDecisions.ChainCompletes | js/approval.js:283-297 | From any stage the owners' approvals one after the other approve the record |
| ApprovalRecords.ApprovalRecord.Advance | js/approval.js:283-297 | Advancing in place: to the next stage, or approved at the last |
| ApprovalRecords.ApprovalRecord.ApplyDecision | js/approval.js:193-389 | The decision in place; a refused one changes nothing |
| ApprovalRecords.StatusShowsOutcome | js/approval.js:231-281 | After every accepted decision the status shows approval or rejection exactly when that is the outcome, names the current stage's desk otherwise, and is never outside the record's kind |
| PlanningApproval.DecisionKeepsBudgeted | js/approval.js:333-389 | An accepted decision of any kind keeps the rule that an item at index 2 or beyond has an approved or adjusted budget review exactly when it is not one of three: a plain forward at Finance, forward_ed before it, or a return override to a later stage, without such a review |
| PlanningApproval.BudgetedExactly | js/planning.js:160-229 | The same over runs of any events: the rule holds at every moment exactly when no accepted decision is one of those |
| PlanningApproval.FinanceReviewComesFirst | js/planning.js:160-229 | In every run where Finance uses its screen, an item at index 2 or beyond has an approved or adjusted budget review |
| PlanningApproval.FiledItemIsBudgeted | js/planning.js:63-136 | An item as intake files it is a start of such runs |
| PlanningApproval.FinanceScreenMeans | js/planning.js:160-187 | Finance's screen: approving goes on to the GM under an approved review, returning needs a comment and goes back to the manager under a refused one |
| PlanningApproval.ExecutiveScreenMeans | js/planning.js:189-229 | The Executive Director's screen: signing approves the item, rejecting needs a comment |
| PlanningApproval.FiledItemCanBeApproved | js/planning.js:160-229 | A filed item can be approved: by Finance, the GM and the Executive Director in turn |
| PlanningApproval.PlanningChainIsBackward | js/planning.js:117-125 | The planning chain's return roles point backwards |
| PlanningApproval.PlainForwardAtFinance | js/approval.js:383-386 | A plain forward at Finance moves on without a review: it keeps the rule exactly when an approved review already stands |
| PlanningApproval.ForwardEdSkipsFinance | js/approval.js:348-357 | From the manager's stage forward_ed is accepted although the budget is required, and two decisions approve the item |
| PlanningApproval.ForwardEdHeldAtGm | js/approval.js:349-351 | At the GM stage it is refused exactly when the budget is required |
| PlanningRelease.PreparationIsSound | js/planning.js:312-408 | Over any interleaving on many items, re-release included, preparation status is the last preparation action and the steps up to it are the latest entries |
| PlanningRelease.ReadyMeansAllFiveSteps | js/planning.js:333-408 | Ready means the last five entries are release by the GM, accept and assign by the manager, propose by the lead, confirm by the manager |
| PlanningRelease.OneAuditEach | js/planning.js:410-517 | Every item yields at most one audit, all with new and different ids, each with one team, workspace and coordination record that agree on dates and notice policy |
| PlanningAudits.AuditFollowsProposal | js/planning.js:416-517 | For every run from items not yet released, each audit made is for one item, with the lead of an assignment of it and the members and both dates, in that order, of a proposal for it; notice is advance exactly for announced and withheld exactly for unannounced inspections, and only the latter are confirmed at once |
| PlanningAudits.MadeDescribes | js/planning.js:430-517 | An audit, its team and its coordination record read off the item as it was: lead and members, dates or else the planned date, the user ids of the names, the notice of the category |
| PlanningAudits.AuditMadeExactly | js/planning.js:410-428 | An audit is made exactly for a ready item of a known category that has none yet, and otherwise nothing changes |
| PlanningAudits.StepsGoThroughExactly | js/planning.js:333-408 | Which preparation steps go through: each by its role, on an item in the status before it, with what it needs |
| PlanningAudits.StepsWrite | js/planning.js:333-408 | What a step that goes through leaves on its item: the fields it names and one history entry |
| PlanningAudits.OnlyActiveLead | js/planning.js:357-363 | An assignment without a user id takes the one active Lead Inspector of that name |
| PlanningAudits.NoOneLead | js/planning.js:357-363 | With none or several of that name it takes none, but for the one the program names itself |
| PlanningAudits.StepsKeepOthers | js/planning.js:329-428 | A step works on its own item and on nothing else; one that is refused changes nothing |
| PlanningAudits.WayToAudit | js/planning.js:329-505 | The five steps by their roles lead to an audit of the lead, the dates and the team that were named |
| PlanningRelease.AuditIdInjective | js/planning.js:430-430 | Different sequence numbers give different audit ids |
| PlanningRelease.NextIdIsNew | js/planning.js:34-40 | The next planning id is new exactly while the largest three-digit number is at most 998 or the four-digit id after it is unused |
| PlanningRelease.MaxUsedMeans | js/planning.js:34-39 | The largest used number is one some id uses, or 0 |
| PlanningRelease.NextPlanningInspectionId | js/planning.js:34-40 | The fold that finds it |
| PlanningRelease.PlanningItem.ReleaseItem | js/planning.js:333-341 | Release in place; no look at the preparation status |
| PlanningRelease.PlanningItem.AcceptItem | js/planning.js:343-351 | Acceptance in place, or a refusal and no change |
| PlanningRelease.PlanningItem.AssignLead | js/planning.js:353-365 | Assignment in place, or a refusal and no change |
| PlanningRelease.PlanningItem.ProposeTeam | js/planning.js:367-388 | Proposal in place by the assigned lead only, or a refusal and no change |
| PlanningRelease.PlanningItem.ConfirmPreparation | js/planning.js:390-408 | Confirmation in place; confirming again changes nothing |
| PlanningRelease.PlanningTarget.Prepare | js/planning.js:333-408 | A step on one item object leaves the other items and the audit records alone |
| PlanningRelease.PlanningTarget.MaterializeReady | js/planning.js:416-517 | Making the audit, its team, workspace and coordination record in place, once |
| ReportPipeline.DecisionSound | js/manager-workspaces.js:180-231 | Every manager, GM and Executive decision keeps the pipeline's invariant: what each status says about owner, lock, sharing and history |
| ReportPipeline.SubmissionSound | js/app.js:3469-3485 | A submission by the Lead keeps it exactly while the report is not locked |
| ReportDecisions.ManagerDecides | js/manager-workspaces.js:180-231 | Exactly which manager decisions are accepted, and the status, owner and entry each leaves |
| ReportDecisions.GmDecides | js/manager-workspaces.js:694-734 | The same for the GM |
| ReportDecisions.ExecutiveDecides | js/manager-workspaces.js:782-971 | Exactly which decisions of the Executive Director are accepted |
| ReportDecisions.ExecutiveLeaves | js/manager-workspaces.js:782-971 | What each of them leaves, for both kinds of report |
| ReportDecisions.LeadLeaves | js/app.js:3469-3485 | Submitted by the Lead, a report is pending with the manager |
| ReportDecisions.WayToProvider | js/manager-workspaces.js:694-987 | Every fresh report with an artifact can reach the Service Provider in a legal run |
| ReportDecisions.ReadModelMeans | js/reports.js:33-43 | The read model has an artifact's own fields, and the projection's where it has none |
| ReportDecisions.VisibleExactly | js/reports.js:392-404 | Exactly which reports the Service Provider sees |
| ReportPipeline.LeadOwnsUnlocked | js/app.js:5638-5648 | What the Lead owns is never locked |
| ReportPipeline.VisibleMeansDelivered | js/reports.js:392-404 | A report is visible to the Service Provider exactly when it has been released or issued, however stale its projection |
| ReportPipeline.VisibleMeansApprovedInOrder | js/manager-workspaces.js:694-987 | A report that starts unlocked and unshared becomes visible only after manager, GM and Executive approvals in that order |
| ReportPipeline.VisibleIsFinal | js/manager-workspaces.js:694-987 | Once visible, no decision changes it |
| ReportPipeline.AtMostOneQueue | js/manager-workspaces.js:143-178 | A report stands in at most one pending queue |
| ReportPipeline.QueueIsWhoMayDecide | js/manager-workspaces.js:630-638 | Where the artifact has its own owner and lock, a desk's queue holds the report exactly when that desk may decide it |
| ReportPipeline.QueueIgnoresProjection | js/reports.js:33-43 | and its place follows the artifact whatever the projection says |
| ReportPipeline.StaleLockHidesReport | js/reports.js:38-42 | Without an own lock it is missing from the GM's queue exactly when the projection says locked |
| ReportPipeline.ReturnedFinalIsStuck | js/manager-workspaces.js:961-964 | A Final Report the Executive Director returned is in no queue and every decision on it is refused |
| ReportPipeline.StuckExactly | js/manager-workspaces.js:143-178 | Of the reports at a desk, exactly those returned to the manager are in no queue, and exactly on those every decision is refused |
| ReportPipeline.ReturnedExactly | js/manager-workspaces.js:694-987 | In every run from a report of which this holds, such as one without a history, a report is returned to the manager exactly when it is a Final Report and the Executive's return is its last entry; so a Preliminary Report never is |
| ReportPipeline.AtDeskMeansQueued | js/manager-workspaces.js:694-987 | In every legal run from a fresh report with its own fields: a report at a desk is in a queue, and open to a decision, unless it is a Final Report the Executive Director just returned |
| ReportPipeline.SubmittingDeliveredPreliminary | js/app.js:3478-3485 | Submitting a delivered Preliminary Report again would leave it visible and in the manager's queue at once |
| ReportPipeline.ReportObject.ApplyManagerDecision | js/manager-workspaces.js:180-231 | The manager's decision in place, or a refusal and no change |
| ReportPipeline.ReportObject.ApplyGeneralManagerDecision | js/manager-workspaces.js:694-734 | The GM's decision in place, or a refusal and no change |
| ReportPipeline.ReportObject.ApplyExecutivePreliminaryDecision | js/manager-workspaces.js:782-842 | The Executive's decision on a Preliminary Report in place, or a refusal and no change |
| ReportPipeline.ReportObject.ApplyExecutiveFinalDecision | js/manager-workspaces.js:911-971 | The Executive's decision on a Final Report in place, or a refusal and no change |
| ReportPipeline.ReportTarget.Decide | js/manager-workspaces.js:108-115 | A decision reaches the artifact when there is one and the projection otherwise; the other object keeps its fields |
| ReportPipeline.ReportTarget.SubmitByLead | js/app.js:3469-3485 | The Lead's handlers in place, as they are |
| UniqueIds.SomeFree | js/manager-workspaces.js:1002-1010 | Among one more candidate than there are taken ids one is free |
| UniqueIds.UniqueId | js/manager-workspaces.js:1002-1010 | The id found is new and its number is at most twice the number of items and one |
| UniqueIds.UniqueIdIsFirst | js/manager-workspaces.js:1002-1010 | It is the first free one: every number from one above the count up to it is taken |
| UniqueIds.ManagerChecklistUniqueId | js/manager-workspaces.js:1002-1010 | The search loop always ends and finds it |
| UniqueIds.FoundSoon | js/manager-workspaces.js:1087-1088 | Any such search ends within one more try than there are taken ids |
| ChecklistPackages.SaveSound | js/manager-workspaces.js:1240-1289 | Saving a question edits in place only the package's own draft; otherwise it writes under an id nobody has |
| ChecklistPackages.EditKeeps | js/manager-workspaces.js:1139-1317 | Every operation on a package keeps drafts private and everything published as it was |
| ChecklistPackages.DuplicateSound | js/manager-workspaces.js:1110-1137 | Duplicating keeps drafts private exactly when the source's sections use none of its open drafts |
| ChecklistPackages.PublishedNeverChanges | js/manager-workspaces.js:1064-1317 | Over every run that never duplicates such a package: the bank entry of every question a version lists, and the sections stored with it, never change |
| ChecklistPackages.SharedDraftChangesPublished | js/manager-workspaces.js:1126-1133 | Duplicate, publish the copy, save the draft in the source: the published version's question is changed |
| ChecklistPackages.SharedDraftRun | js/manager-workspaces.js:1078-1289 | From every workspace where a package of some name can be created a run of five operations does this: the published question takes the content saved last |
| ChecklistPackages.DuplicatingNeverClashes | js/manager-workspaces.js:1115-1121 | Duplicating fails exactly when trimming the free name turns it into a taken one; never for a name without leading white space |
| ChecklistPackages.NamesStayTrimmed | js/manager-workspaces.js:1078-1137 | In every run no package name is ever empty or starts with white space |
| ChecklistPackages.DuplicatingNeverRefused | js/manager-workspaces.js:1110-1137 | So in every run, duplicating any package there is succeeds |
| ChecklistPackages.CreatedIdIsNew | js/manager-workspaces.js:1085-1088 | A new package's id is one nobody has |
| ChecklistMeaning.CreatedExactly | js/manager-workspaces.js:1078-1108 | A package is created exactly under a name that is not blank and that no package has, ignoring case; with its fields |
| ChecklistMeaning.DuplicateMeans | js/manager-workspaces.js:1110-1137 | A duplicate has the source's department, number and sections, question by question |
| ChecklistMeaning.CopyNameMeans | js/manager-workspaces.js:1115-1121 | The copy's name is Copy alone where it is free, and otherwise with the first number that is |
| ChecklistMeaning.DraftMeans | js/manager-workspaces.js:1064-1076 | Opening a draft: a draft stays as it is, anything else becomes one under the next number without open questions |
| ChecklistMeaning.PublishMeans | js/manager-workspaces.js:1147-1181 | Publishing: active versions archived, one more with the sections as they are and all their questions in order |
| ChecklistMeaning.SectionEditsMean | js/manager-workspaces.js:1183-1231 | Adding, removing and moving a section change just that |
| ChecklistMeaning.DropIdKeepsOthers | js/manager-workspaces.js:1311-1316 | Removing a question drops it and keeps the others in order |
| ChecklistMeaning.RemoveQuestionMeans | js/manager-workspaces.js:1306-1317 | and touches one section of the draft only |
| ChecklistMeaning.ReplaceIdMeans | js/manager-workspaces.js:1272-1284 | A copied question stands in the place of the first mention of the original |
| ChecklistMeaning.OwnDraftSaved | js/manager-workspaces.js:1254-1266 | A question the draft owns is changed in place, with the texts trimmed, and nothing else |
| ChecklistMeaning.CopySaved | js/manager-workspaces.js:1266-1289 | Any other save writes a new question under a new id into the bank, the draft's list and the section |
| ChecklistMeaning.EditAcceptedExactly | js/manager-workspaces.js:1139-1317 | Exactly which operations on a package are accepted |
| ChecklistMeaning.EditsDo | js/manager-workspaces.js:1139-1317 | Which change each operation makes to its package |
| ChecklistMeaning.StepsDo | js/manager-workspaces.js:1012-1317 | An operation works on the package of the given id, and leaves everything as it was where there is none or it is refused |
| ChecklistObjects.PackageObject.OpenDraft | js/manager-workspaces.js:1064-1076 | Back to draft in place |
| ChecklistObjects.PackageObject.PublishVersion | js/manager-workspaces.js:1147-1181 | Publishing in place: older versions archived, the new one holds clones, so editable and stored sections share no object |
| ChecklistObjects.PackageObject.PushSection | js/manager-workspaces.js:1183-1198 | Adding a section in place under a new id |
| ChecklistObjects.PackageObject.SwapWith | js/manager-workspaces.js:1215-1231 | Moving a section in place |
| ChecklistObjects.PackageObject.SetQuestions | js/manager-workspaces.js:1311-1316 | Setting a section's list in place is not seen by any version |
| ChecklistObjects.PackageObject.MoveQuestionOut | js/manager-workspaces.js:1306-1317 | Removing a question in place |
| ChecklistObjects.PackageObject.SaveInto | js/manager-workspaces.js:1240-1289 | Saving a question in place |
| ChecklistObjects.PackageObject.DraftVersion | js/checklists.js:49-85 | Opening a draft version in place; without a reason nothing changes |
| ChecklistObjects.PackageObject.PublishApprovedVersion | js/checklists.js:127-142 | Publishing an approved version in place; otherwise nothing changes |
| ChecklistVersions.OneActiveVersion | js/checklists.js:33-142 | Over both publication paths and approval decisions: numbers only grow, ids stay distinct, at most one version is active and it is the one publishedVersion names |
| ChecklistMeaning.DraftVersionMeans | js/checklists.js:49-85 | A draft version needs a reason and takes the questions of the active version, or of the newest, under the next number |
| ChecklistMeaning.VersionIdWritten | js/checklists.js:56-58 | A version's id shows its number with one digit after the point |
| ChecklistMeaning.VersionEventsDo | js/checklists.js:49-142 | What each event of a version history does, and when nothing |
| ChecklistMeaning.PublishApprovedMeans | js/checklists.js:127-142 | An approved version, and no other, becomes active; other active versions are archived; no questions change |
| ChecklistMeaning.GovernedPath | js/checklists.js:42-142 | A version drafted with a reason, approved by manager and GM, can be published |
| ChecklistVersions.PublishApprovedSound | js/checklists.js:127-142 | The governed path's version becomes the only active one |
| ChecklistVersions.PublishSound | js/manager-workspaces.js:1147-1181 | So does the manager's, under a number above all earlier ones |
| ChecklistVersions.DecisionSound | js/approval.js:231-246 | No approval decision makes a version active |
| ChecklistVersions.MoveThereAndBack | js/checklists.js:115-125 | Moving a question swaps it with its neighbour, moves nothing else, and moving back restores the order |
| ChecklistVersions.AddingOnce | js/checklists.js:109-113 | Adding a question keeps a list without repeats, adds just that question, and adding it again changes nothing |
| ChecklistVersions.MovingKeeps | js/checklists.js:115-125 | Moving neither adds nor drops a question |
| ChecklistVersions.MoveInPlace | js/checklists.js:115-125 | The swap in the version's own list |
| FindingLifecycle.RecordsAlwaysSound | js/reports.js:199-251 | For every sequence of the handlers: Evidence versions are 1..n in order, no version is verified twice, and CLOSED means an authorized closure with a non-blank reason or a Close result on the highest version, now Accepted |
| FindingTexts.NotesStayInternal | js/reports.js:246-249 | Two runs of the handlers that differ only in their internal texts end alike in everything but the internal notes |
| FindingTexts.CommentsAreSaid | js/reports.js:246-249 | Every comment the Service Provider reads was given as a comment in some step of the run, and none is taken back |
| FindingTexts.VerificationTexts | js/reports.js:227-249 | An accepted verification adds its comment to the comments and its internal text to the notes |
| FindingTexts.VerificationMarks | js/reports.js:250-258 | It marks the highest Evidence version and moves the Finding on, by its result |
| FindingTexts.ReviewTexts | js/app.js:4824-4859 | Where the texts of a CAP review go |
| FindingTexts.ReviewMarks | js/app.js:4824-4859 | What a CAP review leaves of CAP and status, on each of the four screens |
| FindingTexts.ClosureTexts | js/inspection.js:381-392 | Where the texts of an authorized closure go |
| FindingTexts.ClosureRefused | js/inspection.js:370-380 | A closure by anyone but a manager, or with a blank reason, changes nothing |
| FindingTexts.VerificationRefused | js/reports.js:199-232 | What makes a verification change nothing |
| FindingTexts.OfferedMeans | js/helpers.js:217-232 | Which steps the screens offer, status by status |
| FindingTexts.RecordsHoldSubmissions | js/app.js:4778-4806 | In every run the Evidence holds the submitted files in order, the CAP is the plan submitted last, and there is one revision for each |
| FindingTexts.RevisionsFollow | js/app.js:4829-4852 | The newest revision says what became of the CAP |
| FindingTexts.ConvertedMeans | js/inspection.js:362-447 | What a converted Finding needs and waits for, by severity and by the Lead's choice |
| FindingTexts.NoteNamesFiles | js/inspection.js:438-446 | The note a conversion leaves names the Potential Finding and its files in order |
| FindingTexts.WholeLife | js/reports.js:199-258 | A converted Finding can be closed on Evidence, through a CAP, a return and a second version |
| FindingLifecycle.StatusAgrees | js/work-items.js:10-23 | In every run of the offered actions plus authorized closure the status recomputed from CAP and Evidence is the stored one |
| FindingLifecycle.AgreesAfter | js/work-items.js:10-23 | For every handler with any input, offered or not: what goes through leaves the recomputed status equal to the stored one exactly when it is not a CAP step while Evidence waits or was sent back (or a CAP review where neither is required); what is refused leaves the agreement as it was |
| FindingLifecycle.StatusAgreesExactly | js/work-items.js:10-23 | In every run of the handlers from a freshly converted Finding the two statuses agree at every moment exactly when no such step goes through |
| FindingLifecycle.UnofferedCapDisagrees | js/app.js:4778-4806 | A CAP submitted off the offered path agrees exactly while there is no Evidence; with Evidence waiting it is shown as that |
| FindingLifecycle.StepsArePrefix | js/work-items.js:42-63 | Without authorized closure the completed required lifecycle steps form a prefix |
| FindingLifecycle.AuthorizedStepsPrefix | js/work-items.js:42-63 | After an authorized closure they do exactly when every required step had been completed |
| FindingLifecycle.StepperInOrder | js/work-items.js:64-74 | On a prefix the stepper shows completed steps, at most one current step, then incomplete ones |
| FindingLifecycle.DefinitionsMean | js/work-items.js:42-63 | When each of the six steps is required and complete, read off the records |
| FindingLifecycle.StepsMean | js/work-items.js:64-74 | What the stepper shows for each step |
| FindingLifecycle.PartialMeans | js/work-items.js:18-53 | Partially Accepted counts as accepted to the stepper and as sent back to the status |
| FindingLifecycle.NothingOfferedExactly | js/helpers.js:217-232 | An open Finding has no offered step exactly in the statuses READY_FOR_VERIFICATION and OPEN_OBSERVATION |
| FindingLifecycle.StrandedExactly | js/helpers.js:217-232 | In every offered run an open Finding is left with nothing but an authorized closure exactly when it needs no Evidence and its CAP, if it needs one, was accepted |
| FindingLifecycle.RefusedReturnKeepsNote | js/app.js:4824-4850 | A refused CAP return changes nothing exactly when no internal note was given |
| FindingLifecycle.FindingRecord.constructor | js/inspection.js:362-447 | Conversion: the first status follows from what is required |
| FindingLifecycle.FindingRecord.Submit | js/app.js:4778-4811 | Submitting a CAP in place |
| FindingLifecycle.FindingRecord.DecideCap | js/app.js:4824-4859 | Deciding a CAP in place on any of the four review screens, each with its own checks (also lines 4965-5008, 5104-5145 and 5414-5478) |
| FindingLifecycle.FindingRecord.Upload | js/app.js:5933-5954 | Adding the next Evidence version in place |
| FindingLifecycle.FindingRecord.LatestEvidence | js/reports.js:191-197 | The fold that finds the latest version |
| FindingLifecycle.FindingRecord.Verify | js/reports.js:199-258 | Recording a verification in place |
| FindingLifecycle.FindingRecord.Close | js/inspection.js:370-397 | Authorized closure in place |
| Reminders.OrderDoesNotMatter | js/work-items.js:138-153 | The recorded reminder ids depend only on the set of days evaluated, and none is recorded twice |
| Reminders.CountdownRecordsEachOnce | js/work-items.js:90-153 | Evaluating every day from 30 before the due date to the day after records each of the five stages exactly once |
| Reminders.RecordedExactly | js/work-items.js:90-153 | A stage is recorded exactly when one of the days evaluated calls for it: countdown, overdue, escalation, and critical attention for level 1 |
| Reminders.EventsMean | js/work-items.js:118-136 | Every recorded event says what its id says and was made on a day that called for it |
| Reminders.IdNames | js/work-items.js:118-119 | A reminder id names its Finding and its stage, whatever characters the Finding's id has |
| Reminders.ReminderTarget.EnsureReminders | js/work-items.js:138-153 | The loop over the Findings in place |
| RiskProjection.MatrixAddsUp | js/manager-workspaces.js:555-565 | The 25 cells add up to the number of rows, for every Finding set and filter |
| RiskProjection.BuildMatrix | js/manager-workspaces.js:555-565 | The nested loops that fill it |
| RiskProjection.LevelsAddUp | js/manager-workspaces.js:585-591 | The four levels add up to all rows and overdue-by-risk to the overdue rows |
| RiskProjection.RowMeans | js/manager-workspaces.js:466-478 | Level and cell of a Finding by its severity, one step more likely when overdue |
| RiskProjection.RowsShown | js/manager-workspaces.js:505-545 | The rows are those of the Findings that the filter keeps |
| RiskProjection.TableCounts | js/manager-workspaces.js:567-584 | The totals of the department (or week) table add up to the rows whose key names no property every object inherits; keys are distinct and each entry's total is the sum of its levels |
| RiskProjection.TalliesCount | js/manager-workspaces.js:567-579 | Each entry holds, level by level, how many rows have its key |
| RiskProjection.TableAddsUp | js/manager-workspaces.js:567-584 | The totals add up to all rows exactly when no row's key names such a property |
| RiskProjection.WeeksAddUp | js/manager-workspaces.js:480-487 | The weeks add up to the filtered rows for every Finding set and filter: no week is named like such a property |
| RiskProjection.InheritedNameIsLost | js/manager-workspaces.js:567-572 | One late Finding of a department called constructor counts in the matrix and the levels and is in no department |
| RiskProjection.BuildTable | js/manager-workspaces.js:567-579 | The loop that fills the object |
| RiskProjection.GeneralManagerTotals | js/manager-workspaces.js:656-673 | The General Manager's department totals add up to the unfiltered count exactly under the same condition |

## Left out

- The regulatory repair's indexes, columns and constraints other than the ordering, and the content of each migration: a migration is an opaque change of the schema.
- Returning a session to the pool while it still holds the lock (a failed unlock): a runner's session ends or unlocks.
- References of a draft to its template and creator, and keys of tables other than the drafts and the ordinals; an artifact that lists one mapping twice takes the first position.
- Digest computation: whether a candidate's digest matches is a parameter of the repair.
- PDF features the writers do not use; the reader covers the object kinds, operators and escapes named in the sections it cites, and files whose offsets fit ten digits.
- Word and HTML exports, downloads, blobs and object URLs: input and output.
- Timestamps, notifications, audit-log entries and their ids: dates are tokens or day numbers, and the Executive Final Report decision does not advance the log sequence.
- Closing an audit when its Final Report is issued, release dates, signature labels and enforcement referral records.
- `finalizeApprovedReport` and `applyReportApprovalDecision`: thin wrappers around the approval chain and the Final Report's lock.
- Checklist answers and Potential Findings before conversion: the model starts from a freshly converted Finding, and freshness of Finding ids is taken as given.
- Budget arithmetic of a planning item: whether the budget is valid is a parameter of the Finance screen.
- Date coordination between Lead and Service Provider, team membership edits, the Oversight Health Index and view permissions.
- Filling in missing fields of seeded packages: packages are taken as already shaped, with at least one section.
- The slug in a package id (any slug is allowed), risk scores of questions, attachments, and question fields the save does not overwrite.
- Case folding and upper-casing beyond ASCII; version numbers with more than one decimal or that are not numbers.
- Which week a date falls in: year and week number are taken as printed.
- Sorting of dashboards and report lists, date filters (the risk filter is any predicate on rows), and what a department named `__proto__` does to other objects.
- Manual reminders and recipients of reminder events; a due date that cannot be read is no due date.
- PlanningRelease.PlanningTarget.MaterializeReady: an item that is released again and confirmed with new dates keeps its first audit with the old dates, as the code does; the agreement proved is between the audit and its own records.
- ReportPipeline.VisibleMeansApprovedInOrder: report types are taken in their normalized spelling.
- PdfDocument.DocumentBack: the Final Report with no printable line has an empty page list, which the reader accepts.
