# Qpedia: a verified model of the engine's core

Qpedia ingests documents into a wiki that a language model writes and maintains. Workers drain a
leased job queue; each ingest job drives one source through extraction, classification, an editing
agent, validation, a git commit and embedding; a search index and a chat retriever sit on top.

This project models the parts of that engine whose correctness is not obvious from reading one
function, and proves what they promise.

| modules | what they model |
|---|---|
| `Jobs`, `Lease` | the job table and worker loop, and the queue as a concurrent protocol of workers, clock ticks and crashes |
| `Ingest` | the status machine of one source, with a fault possible before, between and after any two status writes |
| `Pipeline`, `Settling` | sources and queue together: which interleavings leave a source that nothing will ever finish, and that every other source settles, whatever has crashed |
| `Paths`, `Wiki`, `Validator` | which file a path names, the repository and its bundles, the checks before a commit |
| `Agent`, `Proposals`, `Completion` | the bounded agent loop that stages operations, what a run comes to told from the calls alone, and how a new page's frontmatter is completed |
| `Frontmatter`, `Wikilinks`, `Remove`, `Closure` | reading and rewriting `source_ids`, scanning links, removing a source and what that does to the wiki's links |
| `Projection`, `Index` | the rows of the search index and how they follow the wiki |
| `Samples`, `Faults` | failures the code allows, each at a concrete input |
| `Framing`, `Sse` | cutting a byte stream into events, and the two token readers built on it |
| `Ndcg`, `Fusion` | the benchmark's scores, and reciprocal rank fusion |
| `RateLimit` | the per-tenant token bucket |
| `Slug`, `FolderAcl`, `Percent` | slugs and name probing, the closest-ancestor access list, percent-encoding and the consent URL |
| `Gather`, `Rerank` | the page and byte budgets of context gathering, and the reordering of search hits |
| `Text`, `Seqs`, `Reals`, `Wrappers` | the string operations the pipeline relies on, and shared facts about sequences and reals |

Code that updates state in place is a class with methods, or a method with loops; each such method
is proved equal to a specification function, and the properties are lemmas about those functions.
`dafny verify dfyconfig.toml` checks everything.

Where the code and its documentation disagree the model follows the code:

- A tainted source is called resumable (`crates/qpedia-core/src/source.rs:43-45`, line 171 of the repository's own README,
  `crates/qpedia-ingest/src/handlers/ingest.rs:141-143`), but an ingest job on it does nothing: `Ingest.TaintedIsStuck`.
- A rebuild of the index is said to clear a tenant's rows (`crates/qpedia-ingest/src/handlers/reembed.rs:1-2`, `35`), but it
  clears the rows of pages that exist, so rows of vanished pages stay: `Index.RebuildRestoresExactly`. A removal cut
  short after its commit leaves such a row: `Faults.StaleRowIsReachable`.
- A retried removal is said to meet an empty bundle (line 217 of the repository's own README), but it rewrites `log.md` whenever there is one, and
  is refused exactly if that has no room for its entry: `Remove.RetriedRemoval`. When a first removal is refused:
  `Remove.RemovalRefusedExactly`.
- Removing a source is said to take its id off every page (`crates/qpedia-ingest/src/handlers/remove.rs:3-7`); an id in double quotes that equals the removed one
  once unquoted brings it back: `Remove.StillCites` says exactly when, and `Remove.QuotedTwinRevives` and
  `Remove.TwinPageExists` show it happening.
- The 50 KB page cap is checked before the frontmatter of a new page is completed, so a staged page
  can be over the repository's cap: `Agent.RefusedExactly`, and `Faults.LargestPageIsRefused` for a page that the validator
  passes.
- The style guide says of itself that it is never modified (`crates/qpedia-store/src/wikirepo.rs:66`), and the agent refuses its name
  (`crates/qpedia-ingest/src/agent.rs:483-485`), but compares paths before they are resolved: a patch of `./QPEDIA.md` replaces it.
  `Agent.GuideIsKeptExactly`, `Faults.GuideIsOverwritten`.
- Links are checked before a commit so that they resolve (`crates/qpedia-ingest/src/validator.rs:45-55`), against paths as they were given:
  a page created as `./b.md` is listed as `b.md`, and links to `./b.md` dangle. `Validator.CommitKeepsClosedExactly`,
  `Faults.OddLinkBreaksClosure`. After a removal links to deleted pages dangle too, for only the index is cleaned:
  `Closure.RemovalKeepsClosedExactly`, `Faults.RemovalCanBreakClosure`.
- A path like `./.git.md` passes the check for `.git` and creates a page that nothing can read: every removal then fails and
  the index stays behind for good. `Index.IndexAgreement`, `Faults.HiddenPageIsForever`.
- A source whose job dies is to be marked failed so that it is not stranded (`crates/qpedia-ingest/src/runner.rs:245-248`), but the mark is
  a second statement whose error is ignored, and uploads enqueue in a second statement too: `Pipeline.StrandedExactly`,
  `Pipeline.LostMarkStrands`, `Pipeline.LostUploadStrands`.
- Probing for a free wiki path puts `-2` after `.md` (`crates/qpedia-pg-store/src/slug.rs:66-68`): `Wiki.NumberedPathIsNoPage`.
- The context budget is counted in bytes and spent in characters, with a floor, so it is overshot:
  `Gather.FloorOvershoots`, `Gather.WideCharactersOvershoot`; `Gather.BudgetIsKeptExactly` and
  `Gather.OverstepsExactly` say when it is not.
- Of the blank lines of section 9.2.5 of the WHATWG HTML Standard the stream readers see LF LF, CR LF LF and CR LF CR LF only:
  `Sse.FirstBlankIsCutExactly`, `Sse.CrAloneIsNeverCut`.

## Model

| member | source | states |
|---|---|---|
| Jobs.JobStore.Enqueue | crates/qpedia-pg-store/src/jobs.rs:17-42 | a new row is appended and no other row changes |
| Jobs.JobStore.ClaimNextJob | crates/qpedia-pg-store/src/jobs.rs:47-85 | answers nothing only if no row is due; otherwise locks a due row of which no due row was due earlier, counts the attempt, and changes nothing else |
| Jobs.JobStore.CompleteJob | crates/qpedia-pg-store/src/jobs.rs:87-94 | whoever calls, the row is done; a missing row is no error |
| Jobs.JobStore.FailJob | crates/qpedia-pg-store/src/jobs.rs:100-142 | with a delay the row is unlocked and re-queued or, its attempts spent, dead; without one it is dead and keeps its lock; the answer says whether it died |
| Jobs.TurnDecidesNextClaim | crates/qpedia-ingest/src/runner.rs:242-293 | a claimed row can be claimed again only half an hour later, a failed one with attempts left from five seconds later on, a done or dead one never; a turn counts one attempt |
| Jobs.JobRunner.Turn | crates/qpedia-ingest/src/runner.rs:242-301 | one turn of the loop leaves exactly one row changed, and marks the ingest target failed exactly when that row died |
| Lease.TurnIsThreeSteps | crates/qpedia-ingest/src/runner.rs:242-293 | an undisturbed turn is a claim, a wait and an ending of the protocol |
| Lease.StepSafety | crates/qpedia-pg-store/src/jobs.rs:47-142 | within the leases every step keeps one live handler per job, live claims matching their rows, and finished rows untouched |
| Lease.LeaseSafety | crates/qpedia-pg-store/src/jobs.rs:51-79 | the same over every interleaving of any number of workers, and done and dead rows never change again |
| Lease.OwnedRowIsStable | crates/qpedia-pg-store/src/jobs.rs:51-58 | while a handler is live and within its lease nobody else changes its row |
| Lease.DoneIsNotAbsorbingWithoutLeases | crates/qpedia-pg-store/src/jobs.rs:87-94 | a run with an outlived lease in which a done job is queued again |
| Lease.AttemptAccounting | crates/qpedia-pg-store/src/jobs.rs:59-131 | with no assumption: rows well formed, attempt is the number of claims, at most the cap plus lease-expiry reclaims |
| Lease.NoJobIsLost | crates/qpedia-pg-store/src/jobs.rs:17-142 | no run loses a job or changes its kind, target or cap |
| Lease.ClaimableFromWakeTime | crates/qpedia-pg-store/src/jobs.rs:70-72 | an unfinished job is claimable exactly from its wake time on, a finished one never |
| Lease.CrashLosesNoJob | crates/qpedia-pg-store/src/jobs.rs:66-81 | a live handler may vanish at any time: its row is left as it is and may be claimed by anyone from the moment its lease has lapsed, not before |
| Lease.CrashFreeRunsAreAttended | crates/qpedia-ingest/src/runner.rs:242-293 | without crashes and within leases every running row has its live handler and no row is over its cap |
| Lease.RunsAreRegular | crates/qpedia-pg-store/src/jobs.rs:47-142 | within the leases, whatever crashes, every state keeps exclusion, matching claims and well-formed rows |
| Lease.WorkFalls | crates/qpedia-pg-store/src/jobs.rs:59-131 | every claim, completion or failure strictly lowers the work left, the claim of an orphaned row over its cap included |
| Lease.NoWorkLeft | crates/qpedia-pg-store/src/jobs.rs:59-131 | no work is left exactly when every job is done or dead |
| Lease.WorkIsBounded | crates/qpedia-ingest/src/runner.rs:257-290 | from every such state a stretch without crashes and new jobs does at most that much work, whatever the schedule |
| Lease.WorkIsAlwaysPossible | crates/qpedia-ingest/src/runner.rs:242-290 | while a job is unfinished some handler can end or some job can be claimed, once it is due or its orphaned lease has lapsed |
| Lease.QueueDrains | crates/qpedia-ingest/src/runner.rs:242-293 | from every such state, orphaned rows and all, there is a schedule that finishes every job |
| Pipeline.StrandedExactly | crates/qpedia-ingest/src/runner.rs:242-301 | over every history of workers, crashes and uploads within the leases, a source that is neither done, tainted nor failed is left with nobody owing it anything if and only if the last thing owed, an upload's job or a dead job's mark, was dropped |
| Pipeline.CrashStrandsNone | crates/qpedia-pg-store/src/jobs.rs:66-81 | a worker may die at any point of a handler; its source keeps status and job, and the job is still to be done |
| Pipeline.DrainedIsSettled | crates/qpedia-ingest/src/runner.rs:245-290 | without such a drop, once no ingest of it is unfinished, no upload on its way and no mark to write, a source is done, tainted or failed |
| Pipeline.ForgottenForGood | crates/qpedia-ingest/src/runner.rs:257-290 | such a source keeps its status until somebody uploads, deletes or re-enqueues it |
| Pipeline.LostMarkStrands | crates/qpedia-ingest/src/runner.rs:261-268 | a history that gets there: five failed attempts and a mark that is not written |
| Pipeline.LostUploadStrands | crates/qpedia-api/src/routes.rs:1040-1062 | and one that gets there in two: the source is recorded, and its job is never enqueued |
| Pipeline.FailedWasGivenUp | crates/qpedia-ingest/src/runner.rs:257-268 | over any history a failed source was marked so after the last attempt of an ingest of it had failed |
| Pipeline.StaysCoherent | crates/qpedia-ingest/src/handlers/ingest.rs:21-65 | every event keeps the queue's exclusion, one position per live handler, and only statuses in use |
| Settling.EverySourceSettles | crates/qpedia-ingest/src/runner.rs:242-301 | from every sound world, whatever has crashed, the workers can go on without crash, fault or drop and within the leases until nothing is left to do; however they do, a source is then done, tainted or failed if and only if it was not stranded to begin with |
| Settling.HistoriesCanGoOn | crates/qpedia-ingest/src/runner.rs:242-301 | every point of every history within the leases, crashes and drops included, is such a world, and a source stranded there was dropped before |
| Settling.HandlerEnds | crates/qpedia-ingest/src/handlers/ingest.rs:21-65 | a handler, wherever it is in its steps and whatever status it finds, comes to its end |
| Paths.ResolveTwice | crates/qpedia-store/src/wikirepo.rs:295-314 | the path a path resolves to resolves to itself |
| Paths.SafeAsChecked | crates/qpedia-store/src/wikirepo.rs:295-310 | which paths the check lets through, as it is written: by what stands in the path, not by its components |
| Paths.SafeUnlessHidden | crates/qpedia-store/src/wikirepo.rs:295-314 | a path that passes the check names a file whose own path passes it, exactly unless that begins with .git |
| Paths.SystemStaysSystem | crates/qpedia-ingest/src/validator.rs:90-91 | a markdown path exempt as the bot's own resolves to one of the bot's own |
| Ingest.StepAdvances | crates/qpedia-ingest/src/handlers/ingest.rs:56-121 | a step after which the run goes on strictly raises the stage, so the unchanged-status test never fires |
| Ingest.FaultsSetNothingBack | crates/qpedia-ingest/src/handlers/ingest.rs:71-203 | no fault takes a source back a stage or into one of the five unused statuses |
| Ingest.OneStageAtATime | crates/qpedia-ingest/src/handlers/ingest.rs:71-121 | a step that goes on takes the source to just the next stage, except to Done for an archive or Tainted for a file nothing extracts |
| Ingest.StepsFailAnywhere | crates/qpedia-ingest/src/handlers/ingest.rs:34-37 | a step can fail before any of its writes and after the last |
| Ingest.HistoriesAreChronicles | crates/qpedia-ingest/src/handlers/ingest.rs:71-203 | over every history each status a job writes is one its configuration lets follow the one before |
| Ingest.PhasesInOrder | crates/qpedia-ingest/src/handlers/distill.rs:27-63 | no phase is skipped: since it was last uploaded or given up, a source committed or embedding was extracted, classified and distilled, in that order, and one done was so too unless it is an archive |
| Ingest.RunTakesItsCourse | crates/qpedia-ingest/src/handlers/classify.rs:45-106 | exactly which statuses a run without faults writes, from every stage and configuration |
| Ingest.Source.WriteAll | crates/qpedia-ingest/src/handlers/distill.rs:27-63 | the writes of a step, up to its fault |
| Ingest.Source.Run | crates/qpedia-ingest/src/handlers/ingest.rs:21-65 | a job is the run of the specification, status by status, and takes at most five steps, whatever fails |
| Ingest.RerunRecovers | crates/qpedia-ingest/src/handlers/ingest.rs:21-203 | from every status a run without faults succeeds and ends where the configuration says |
| Ingest.AlwaysRecoverable | crates/qpedia-ingest/src/handlers/classify.rs:45-106 | over every history of faults, retries and replacements no status is reached that no step writes, and a fault-free run ends Done or Tainted |
| Ingest.FailedRunResumes | crates/qpedia-ingest/src/handlers/archive.rs:110-220 | the step that failed leaves the source at its own stage or a later one, and the next run, with any configuration, completes from there |
| Ingest.TaintedIsStuck | crates/qpedia-ingest/src/handlers/ingest.rs:115-118 | no run moves a tainted source; the sources in use that a run moves are exactly those neither done nor tainted |
| Wiki.NumberedPathIsNoPage | crates/qpedia-pg-store/src/slug.rs:66-91 | the path probing returns for a taken one does not end in .md |
| Wiki.RefusedForSome | crates/qpedia-store/src/wikirepo.rs:220-236 | a bundle is refused before any write exactly if some operation is at fault or the written pages are over the total cap |
| Wiki.RefusedWith | crates/qpedia-store/src/wikirepo.rs:216-236 | with which error: that of the first operation with a page over 50 KB or a path that is not safe, or that the pages are together over 500 KB |
| Wiki.LastOpDecides | crates/qpedia-store/src/wikirepo.rs:242-271 | applied in order, the last operation that names a file, however it spells the path, decides what it holds; other files keep what they had |
| Paths.ShownResolves | crates/qpedia-store/src/wikirepo.rs:334-350 | the name a listing shows, below the folder as it was given, names the page |
| Paths.PageByName | crates/qpedia-store/src/wikirepo.rs:334-350 | a markdown file is listed exactly if its name has something before the extension |
| Paths.BelowByComponents | crates/qpedia-store/src/wikirepo.rs:157-170 | a file is below a folder exactly if the folder's components, empty and dot ones aside, are the first of its own |
| Paths.ShownAsStoredExactly | crates/qpedia-store/src/wikirepo.rs:334-350 | it is the page's own path if and only if the folder as given has no empty or `.` component in the middle |
| Wiki.WikiRepo.ListPages | crates/qpedia-store/src/wikirepo.rs:157-170 | every page below the folder exactly once, by the name shown, in ascending order; an error exactly for an unsafe prefix and for one that is a file |
| Wiki.FilesAreNamed | crates/qpedia-store/src/wikirepo.rs:157-170 | the prefix that is a file, which the listing refuses, is one that is in the tree, given without a slash or a dot behind it |
| Wiki.ListingOfFolder | crates/qpedia-store/src/wikirepo.rs:157-170 | a listing shows exactly the pages whose components begin with the folder's |
| Wiki.ListingOfRoot | crates/qpedia-store/src/wikirepo.rs:157-170 | with an empty prefix these are the paths of all pages |
| Wiki.WikiRepo.ChangedInHead | crates/qpedia-store/src/wikirepo.rs:175-184 | a markdown file is listed if and only if its content in HEAD differs from that in the parent, created and deleted ones included |
| Wiki.WikiRepo.CommitBundle | crates/qpedia-store/src/wikirepo.rs:216-291 | which error, and that a refused bundle changes nothing while an accepted one is the whole edit, every path resolved, as one commit |
| Frontmatter.ExtractSourceIds | crates/qpedia-ingest/src/handlers/remove.rs:202-221 | the nested loops read what the specification reads |
| Frontmatter.RemoveSourceIdFromFrontmatter | crates/qpedia-ingest/src/handlers/remove.rs:225-261 | the rewriting loop writes what the specification writes |
| Frontmatter.FrameParts | crates/qpedia-ingest/src/handlers/remove.rs:226-237 | framing loses nothing and finds the first closing fence |
| Frontmatter.ExtractedIdsAreReadable | crates/qpedia-ingest/src/handlers/remove.rs:208-219 | what every extracted id satisfies |
| Frontmatter.RewriteKeepsTheRest | crates/qpedia-ingest/src/handlers/remove.rs:245-260 | after the rewrite the closing fence is found right after the new lines and all around it is unchanged |
| Frontmatter.RewrittenIds | crates/qpedia-ingest/src/handlers/remove.rs:239-260 | each source_ids line of a rewritten page reads as the written ids, with or without carriage returns |
| Frontmatter.RewriteRoundTrip | crates/qpedia-ingest/src/handlers/remove.rs:202-261 | re-extraction gives back the written ids, once per source_ids line, if and only if none has a double quote at an end |
| Frontmatter.RewriteCites | crates/qpedia-ingest/src/handlers/remove.rs:202-261 | a rewritten page cites exactly the ids that survive quoting |
| Frontmatter.RereadMembers | crates/qpedia-ingest/src/handlers/remove.rs:213 | an id reads back from written ids exactly if one of them equals it once its end quotes are off |
| Frontmatter.PageListingReads | crates/qpedia-ingest/src/handlers/remove.rs:202-221 | every list of readable ids is what some page is read as, ids with double quotes at their ends included |
| Projection.ParseFrontmatter | crates/qpedia-ingest/src/handlers/embed.rs:131-153 | the line loop computes the fields, later lines winning |
| Projection.FieldsAreRead | crates/qpedia-ingest/src/handlers/embed.rs:131-153 | each field is that of the last frontmatter line that begins with its key, unquoted or read as a list, and is there exactly if there is such a line |
| Projection.RowIsRead | crates/qpedia-ingest/src/handlers/embed.rs:66-86 | what each column of a page's row holds, the path standing in for a missing id or title, and what text is embedded |
| Projection.IndexReadsRewrite | crates/qpedia-ingest/src/handlers/embed.rs:122-174 | of a rewritten page the index stores the same fields and body and just the written ids, however many source_ids lines there are |
| Wikilinks.ExtractWikilinks | crates/qpedia-ingest/src/validator.rs:146-161 | the scan yields every link left to right up to an unclosed one |
| Wikilinks.LinkIsRead | crates/qpedia-ingest/src/validator.rs:146-165 | what stands between the first opening and the next closing, trimmed, is the first link, and the rest is searched behind it |
| Wikilinks.PathIsBeforeAnchor | crates/qpedia-ingest/src/validator.rs:120-128 | the path of a link is what stands before its first # |
| Wikilinks.KeepsLine | crates/qpedia-ingest/src/handlers/remove.rs:273-292 | a line is kept exactly if it links to no deleted page, though the scan stops at the first |
| Wikilinks.RemoveWikilinksFromIndex | crates/qpedia-ingest/src/handlers/remove.rs:267-297 | the filter loop computes the cleaned index |
| Wikilinks.CleanIndexLines | crates/qpedia-ingest/src/handlers/remove.rs:271-296 | its lines are exactly those without a dead link, in order |
| Wikilinks.CleanIndexIsClean | crates/qpedia-ingest/src/handlers/remove.rs:263-297 | none of its lines links to a deleted page |
| Remove.Judge | crates/qpedia-ingest/src/handlers/remove.rs:49-69 | the verdict on one page: kept, deleted or rewritten |
| Remove.Sort | crates/qpedia-ingest/src/handlers/remove.rs:46-70 | the walk fails exactly if some page outside the bot's own cannot be read; else the two lists hold exactly the pages with the two verdicts |
| Remove.AgreeingOps | crates/qpedia-ingest/src/handlers/remove.rs:81-133 | operations that agree with an outcome and name every path it changes bring it about |
| Remove.Plan | crates/qpedia-ingest/src/handlers/remove.rs:46-133 | no plan exactly if the walk fails; else the operations are exactly the deletes, the rewrites, the cleaned index and the log entry, and applied they leave every path as the removal promises |
| Remove.RemovalRefusedExactly | crates/qpedia-store/src/wikirepo.rs:216-240 | once every page has been read, the repository refuses the plan if and only if a rewritten page, the cleaned index or the log is over the page cap, or all of them are over the total cap |
| Remove.RetriedRemoval | crates/qpedia-ingest/src/handlers/remove.rs:115-147 | a removal with no page left to change plans the log entry alone, and is refused exactly if the log has no room for it |
| Remove.NothingLeftToRemove | crates/qpedia-ingest/src/handlers/remove.rs:46-70 | after a removal among ids without double quotes at their ends no page is left to change, so a retry is such a one |
| Remove.StillCites | crates/qpedia-ingest/src/handlers/remove.rs:54-69 | a page that stays still cites the removed source if and only if it did and another of its ids equals the source once its end quotes are off |
| Remove.NoCitationSurvives | crates/qpedia-ingest/src/handlers/remove.rs:46-95 | without such ids no page cites the source, other pages keep exactly their other ids, and pages that did not cite it are untouched |
| Remove.SlugsAreSafeIds | crates/qpedia-pg-store/src/slug.rs:22-41 | ids that are slugs never meet the exception |
| Remove.QuotedTwinRevives | crates/qpedia-ingest/src/handlers/remove.rs:239-250 | a page that also cites the id in double quotes is left, and cites the source again |
| Remove.TwinPageExists | crates/qpedia-ingest/src/handlers/remove.rs:202-221 | for every source there is such a page |
| Remove.CleanIdsAreNoTwins | crates/qpedia-ingest/src/handlers/remove.rs:213 | pages whose other ids have no double quotes at their ends are never such |
| Remove.IndexIsClean | crates/qpedia-ingest/src/handlers/remove.rs:99-113 | when pages were deleted no line of index.md links to one |
| Closure.RewriteKeepsKey | crates/qpedia-ingest/src/handlers/remove.rs:225-261 | a rewritten page has any other frontmatter key exactly if it had it |
| Closure.LinksOfRewrite | crates/qpedia-ingest/src/handlers/remove.rs:225-261 | a rewritten page has, in order, exactly the links it had but for those on its source_ids lines |
| Closure.RemovalKeepsClosedExactly | crates/qpedia-ingest/src/handlers/remove.rs:97-113 | where frontmatter lines close the links they open, a closed wiki is closed after a removal if and only if no page that stays linked to a deleted one, other than from a source_ids line that is rewritten |
| Faults.RemovalCanBreakClosure | crates/qpedia-ingest/src/handlers/remove.rs:97-113 | a closed wiki of two pages that is not closed after a removal |
| Validator.HasKey | crates/qpedia-ingest/src/validator.rs:141-144 | whether some frontmatter line begins with the key |
| Validator.CheckPage | crates/qpedia-ingest/src/validator.rs:77-132 | exactly the errors of a page, in order |
| Validator.Validate | crates/qpedia-ingest/src/validator.rs:35-75 | exactly the errors of a bundle, the paths it writes and their bytes |
| Validator.PassesExactly | crates/qpedia-ingest/src/validator.rs:35-132 | a bundle passes if and only if it is not empty and every page it writes outside the bot's own is well formed among the pages there will be |
| Validator.ErrorsAreFaults | crates/qpedia-ingest/src/validator.rs:77-131 | an error is reported exactly if a page written outside the bot's own has that fault, under the path it was written to |
| Validator.UniverseIsOnDisk | crates/qpedia-ingest/src/validator.rs:47-55 | a path the validator counts on is a page the commit leaves, deletes included, if it is the name its file is listed by |
| Validator.CommitKeepsNearlyClosed | crates/qpedia-store/src/wikirepo.rs:242-271 | a passing bundle that deletes nothing leaves every page with a title and a kind, and no dangling link but ones spelled as no page is listed |
| Validator.CommitKeepsClosedExactly | crates/qpedia-store/src/wikirepo.rs:242-271 | it keeps a closed wiki closed if and only if no page it writes is left with a link to a path it creates under such a spelling |
| Validator.LinkClosure | crates/qpedia-ingest/src/handlers/distill.rs:45-61 | over every run of distill and lint commits from a new wiki the same holds, and the wiki is closed exactly if no page has an oddly spelled link |
| Validator.LintLeavesItsReport | crates/qpedia-ingest/src/handlers/lint.rs:65-88 | a lint commit leaves the report at its path and every other file alone, and is refused exactly if the report is over 50 KB |
| Agent.StagedOps.ExecuteTool | crates/qpedia-ingest/src/agent.rs:431-468 | a call stages one operation or, at fault, nothing; files are found by the resolved path, staged operations by the path as given |
| Agent.RunAgent | crates/qpedia-ingest/src/agent.rs:149-224 | the nested loops with their budgets are the run of the specification, errors included |
| Proposals.AllowedExactly | crates/qpedia-ingest/src/agent.rs:479-491 | which paths may be proposed, character by character |
| Proposals.ProperIsStaged | crates/qpedia-ingest/src/agent.rs:427-469 | given what was staged before, a call is staged exactly if it is a proper proposal, and then as the operation it asks for |
| Proposals.RunIsItsProposals | crates/qpedia-ingest/src/agent.rs:145-225 | what a run comes to, told from the calls of its turns: the operations of all proper proposals in order, or which budget or failure ends it |
| Proposals.EveryProposalIsStaged | crates/qpedia-ingest/src/agent.rs:427-469 | a model that makes proposals in order over at most 18 turns, at most 20 and 500 KB in all, and is then done, gets one operation for each |
| Agent.StageKeeps | crates/qpedia-ingest/src/agent.rs:431-468 | every call keeps the operations in order and the bookkeeping equal to what is staged |
| Agent.BundleIsEditScript | crates/qpedia-ingest/src/agent.rs:149-224 | whatever the model does: at most 20 operations, total within the cap, creates only of files that are not there, patches only of files that are or of paths created before, no deletes |
| Agent.ScriptAddsWhatItCreates | crates/qpedia-ingest/src/agent.rs:437-466 | the files after such a bundle are the old ones and exactly those its creates name, none of which was there |
| Agent.GuideIsKeptExactly | crates/qpedia-ingest/src/agent.rs:479-490 | the guide is changed if and only if the last operation that resolves to it, necessarily spelled otherwise, writes something else |
| Faults.GuideIsOverwritten | crates/qpedia-ingest/src/agent.rs:450-466 | a model that patches ./QPEDIA.md replaces the guide by any well-formed page |
| Agent.RefusedExactly | crates/qpedia-ingest/src/agent.rs:436-443 | the repository refuses such a bundle if and only if a created page outgrew the cap when its frontmatter was completed |
| Agent.OutgrownPageIsRefused | crates/qpedia-ingest/src/agent.rs:436-443 | when completion takes a page over the cap, the model that proposes it gets its bundle, which the repository's checks refuse |
| Agent.CompletionAdds | crates/qpedia-ingest/src/agent.rs:504-527 | exactly how much longer completion makes a page, by the fields its frontmatter lacks |
| Completion.CompletionFillsIn | crates/qpedia-ingest/src/agent.rs:504-528 | completing a page puts the fields it does not mention behind its frontmatter, with the id and time drawn, and changes nothing else |
| Completion.CompletionIsIdempotent | crates/qpedia-ingest/src/agent.rs:502-503 | a completed page is left alone, whatever is drawn the next time |
| Faults.LargestPageIsRefused | crates/qpedia-ingest/src/agent.rs:436-443 | a proposed page of the largest size with title and kind, completed as the code completes it, is staged, passes the validator and is refused by the repository for its size |
| Agent.AgentsKeepClosed | crates/qpedia-ingest/src/handlers/distill.rs:38-61 | link closure end to end, for arbitrary models: no page without title or kind, no dangling link but oddly spelled ones, and a closed wiki exactly if there are none of those |
| Agent.PlainAgentsKeepClosed | crates/qpedia-ingest/src/handlers/distill.rs:38-61 | with models that create pages under the names they are listed by, the wiki is closed after every run |
| Faults.OddLinkBreaksClosure | crates/qpedia-ingest/src/agent.rs:431-449 | a model that creates ./b.md with a link to ./b.md leaves a dangling link |
| Index.EmbedChangedPages | crates/qpedia-ingest/src/handlers/embed.rs:52-109 | exactly the rows of the files HEAD changed and left are written; none at all if one of those changed cannot be read |
| Index.WriteBatches | crates/qpedia-ingest/src/handlers/reembed.rs:48-104 | batch by batch every page is written once; if a page cannot be read, exactly those of the batches of 32 before its own |
| Index.Reembed | crates/qpedia-ingest/src/handlers/reembed.rs:26-104 | the rows of current pages are dropped and written again, up to a page that cannot be read; others stay |
| Index.LintJobLeavesItsReport | crates/qpedia-ingest/src/handlers/lint.rs:65-88 | among the jobs of a history the same, with the index left alone; HEAD moves exactly if the report is new |
| Index.IngestJob | crates/qpedia-ingest/src/handlers/distill.rs:38-63 | validate, commit and embed as one step; a refused bundle changes nothing, an empty one still embeds HEAD, and the step succeeds exactly if bundle and embedding do |
| Index.IngestLands | crates/qpedia-ingest/src/handlers/distill.rs:38-63 | a bundle that passes validation and the repository's checks is in the files afterwards, any other changes nothing; the index is brought up to HEAD if it did, or if there was nothing to commit |
| Index.RemovalJob | crates/qpedia-ingest/src/handlers/remove.rs:137-166 | plan, commit, drop rows and embed as one step; it fails exactly if some page cannot be read or the plan is over a cap or changes nothing, and then nothing changes |
| Index.EmbeddingRepairsExactly | crates/qpedia-ingest/src/handlers/embed.rs:52-109 | embedding HEAD's readable changes brings agreement if and only if nothing else was out of step |
| Index.RebuildRestoresExactly | crates/qpedia-ingest/src/handlers/reembed.rs:35-104 | from any rows a rebuild brings agreement if and only if no row is left of a page that is gone |
| Faults.StaleRowSurvives | crates/qpedia-ingest/src/handlers/remove.rs:147-163 | a removal cut short after its commit leaves the rows of the deleted pages, and no rebuild clears them |
| Faults.StaleRowIsReachable | crates/qpedia-ingest/src/handlers/reembed.rs:35-104 | one ingest of one page, a removal cut short and a rebuild end in such a state |
| Index.RemovalKeepsAgreement | crates/qpedia-ingest/src/handlers/remove.rs:137-163 | a removal that can read the wiki keeps rows and pages in agreement |
| Index.IndexAgreement | crates/qpedia-ingest/src/handlers/embed.rs:47-109 | over every history of ingests, removals, lint passes and rebuilds the rows are exactly the projections of the current pages if and only if every page outside the bot's own can be read |
| Index.UnreadableForGood | crates/qpedia-ingest/src/handlers/reembed.rs:48-58 | once some page cannot be read no later job brings agreement back |
| Faults.HiddenPageIsForever | crates/qpedia-store/src/wikirepo.rs:295-302 | a page proposed as ./.git.md is committed and is such a page |
| Index.RowsForgetTheSource | crates/qpedia-ingest/src/handlers/remove.rs:157-163 | after a removal the row of a page that cited the source, and no quoted form of it, lists exactly its other ids as they read back, the source not among them |
| Framing.DrainConserves | crates/qpedia-llm/src/openrouter.rs:104-106 | drained events and the remaining buffer are the bytes received |
| Framing.DrainLeavesNoUnit | crates/qpedia-llm/src/openrouter.rs:104-106 | the remainder holds no complete event |
| Framing.DrainedExactly | crates/qpedia-llm/src/openrouter.rs:104-106 | draining parts a buffer into complete events and a remainder with none, and is the only way to do so |
| Framing.DrainAppend | crates/qpedia-llm/src/openrouter.rs:96-106 | draining what has come and then what follows is draining it all at once |
| Framing.IncrementalIsWhole | crates/qpedia-llm/src/openrouter.rs:91-125 | reading chunk by chunk, stop and break included, is reading the whole received body |
| Framing.ChunkingInvariance | crates/qpedia-llm/src/openrouter.rs:91-125 | deliveries of the same bytes that break alike are read alike, however chunked |
| Sse.FindEventTerminator | crates/qpedia-llm/src/openrouter.rs:128-134 | the first terminator of either length |
| Sse.TerminatorIsStable | crates/qpedia-llm/src/anthropic.rs:164-171 | a terminator found in a prefix is never displaced by later bytes |
| Sse.CutIsStable | crates/qpedia-llm/src/openrouter.rs:104-106 | so the cutter meets what the framing theorems ask |
| Sse.FirstBlankIsCutExactly | crates/qpedia-llm/src/openrouter.rs:128-134 | the reader cuts at the first blank line of the standard exactly if that is LF LF, CR LF LF or CR LF CR LF, and never before it |
| Sse.CrAloneIsNeverCut | crates/qpedia-llm/src/openrouter.rs:128-134 | a stream whose lines end in CR alone yields no event |
| Sse.FrameableExactly | crates/qpedia-llm/src/openrouter.rs:128-134 | exactly which bodies have an appended blank line as their first terminator |
| Sse.FramingRoundTrip | crates/qpedia-llm/src/openrouter.rs:104-106 | framing bodies and draining gives them all back, with nothing left over, if and only if all are such bodies |
| Sse.EventsAreLines | crates/qpedia-llm/src/openrouter.rs:107-122 | reading events is reading their lines, whatever the wire |
| Sse.OpenAiTokens | crates/qpedia-llm/src/openrouter.rs:107-125 | the tokens are the non-empty texts of the lines before the first end marker, and the stream has stopped exactly if there is one |
| Sse.AnthropicTokens | crates/qpedia-llm/src/anthropic.rs:128-162 | without an end marker the tokens are the texts of all lines, empty ones included |
| Sse.AnthropicNeverStops | crates/qpedia-llm/src/anthropic.rs:128-162 | without an end marker every event of the stream is read |
| Sse.DrainBuffer | crates/qpedia-llm/src/openrouter.rs:104-123 | the inner loop reads events until none is complete or the stream stops |
| Sse.SseToTokens | crates/qpedia-llm/src/openrouter.rs:91-126 | the tokens are those of the body read whole, however it was chunked |
| Ndcg.PrefixesDecide | crates/qpedia-bench/src/main.rs:334-349 | summation by parts: dominated prefixes give dominated discounted sums, with equality only if all prefixes agree |
| Ndcg.GainsWithinIdeal | crates/qpedia-bench/src/main.rs:336-344 | every cut of a duplicate-free ranking gathers at most what the ideal order gathers |
| Ndcg.ScoreIsBounded | crates/qpedia-bench/src/main.rs:334-350 | DCG never exceeds the ideal DCG, so nDCG is in [0, 1], for arbitrary grades and any logarithm |
| Ndcg.ScoreIsPerfectExactly | crates/qpedia-bench/src/main.rs:334-350 | nDCG is 1 if and only if a judgement counts and each of the first K positions is as good as the ideal |
| Ndcg.OnePageScore | crates/qpedia-bench/src/main.rs:334-350 | where one page is judged the score is log 2 over the logarithm of its rank plus one, and zero past rank ten |
| Ndcg.GainsAdd | crates/qpedia-bench/src/main.rs:334-349 | the discounted sums are linear in the gains |
| Ndcg.BestFirstOrdersAgree | crates/qpedia-bench/src/main.rs:343-344 | ties in grade do not matter |
| Ndcg.BestFirstIsPerfect | crates/qpedia-bench/src/main.rs:334-350 | a ranking that opens with all judged pages, best first, scores 1 |
| Ndcg.ScoreQuery | crates/qpedia-bench/src/main.rs:315-357 | the accumulating loops compute the specified score, reciprocal rank, recall and exact match |
| Ndcg.Acc.Push | crates/qpedia-bench/src/main.rs:366-372 | each sum grows by the query's score and stays within the number of queries |
| Ndcg.Acc.Finish | crates/qpedia-bench/src/main.rs:373-382 | the averages are in [0, 1] and times the count are the sums |
| Ndcg.Report | crates/qpedia-bench/src/main.rs:315-383 | every metric of a run is the average of that metric over its queries, in [0, 1] |
| Fusion.FusionIsMonotone | crates/qpedia-pg-store/src/wiki.rs:146-153 | no worse in both lists and better in one scores strictly higher |
| Fusion.ConsensusWins | crates/qpedia-pg-store/src/wiki.rs:146-153 | a page in both lists, ranked below k + 2, beats every page in only one |
| Fusion.ConsensusBoundIsSharp | crates/qpedia-pg-store/src/wiki.rs:146-153 | at rank k + 2 it only ties |
| Fusion.ConsensusComesFirst | crates/qpedia-pg-store/src/wiki.rs:126-167 | when the pool is below k + 2 consensus pages come before all others and none is left out |
| Fusion.DefaultsGiveConsensusFirst | crates/qpedia-pg-store/src/wiki.rs:124-126 | the default k and at most 15 hits meet that condition |
| Fusion.HybridSearch | crates/qpedia-pg-store/src/wiki.rs:112-170 | hits are duplicate-free, sorted, and no omitted page scores higher |
| RateLimit.FromEnv | crates/qpedia-api/src/rate_limit.rs:37-49 | configured limits are taken as they are from one on, and 30 and 10 stand in for missing ones |
| RateLimit.ChatRateLimiter.Check | crates/qpedia-api/src/rate_limit.rs:63-84 | the tenant's bucket is refilled and spent as specified, every other bucket is unchanged |
| RateLimit.TokensAreConserved | crates/qpedia-api/src/rate_limit.rs:63-84 | admissions plus tokens left never exceed a full bucket plus what was refilled |
| RateLimit.WindowBound | crates/qpedia-api/src/rate_limit.rs:63-84 | in any window of T seconds a tenant is admitted at most burst + T * rpm / 60 times |
| RateLimit.AdmittedExactly | crates/qpedia-api/src/rate_limit.rs:63-84 | a check is admitted if and only if no window of its tenant's that ends with it would then hold more than burst + T * rpm / 60 admissions |
| RateLimit.BurstIsGranted | crates/qpedia-api/src/rate_limit.rs:69-80 | as many first checks of a tenant as the burst allows are admitted |
| RateLimit.IdleTenantHasItsBurst | crates/qpedia-api/src/rate_limit.rs:73-80 | and again after a pause as long as a bucket takes to fill |
| RateLimit.SplitRefill | crates/qpedia-api/src/rate_limit.rs:73-75 | two lazy refills are one |
| RateLimit.TenantsAreIsolated | crates/qpedia-api/src/rate_limit.rs:69-72 | every check answers as if its tenant were alone |
| RateLimit.RetryAfterSuffices | crates/qpedia-api/src/rate_limit.rs:60-83 | waiting as told suffices, and one second less does not, for every rate whose waits fit 64 bits |
| RateLimit.NoRateNoRefill | crates/qpedia-api/src/rate_limit.rs:52-83 | with a rate of zero a refused check is told the largest wait, and every later check is refused |
| RateLimit.NothingIsAdmittedBelowOneToken | crates/qpedia-api/src/rate_limit.rs:52-80 | with a burst below one no check is ever admitted; with one or more the first is |
| Slug.Slugify | crates/qpedia-pg-store/src/slug.rs:22-41 | the character loop gives the words of the name joined by dashes, cut to 80 characters |
| Slug.SlugShape | crates/qpedia-pg-store/src/slug.rs:19-41 | never empty, at most 80 characters of [a-z0-9-], no leading, trailing or doubled dash |
| Slug.WordsKeepLetters | crates/qpedia-pg-store/src/slug.rs:22-35 | the words of a slug hold the letters and digits of the name, lowercased and in order, and nothing else |
| Slug.SlugIsCutWords | crates/qpedia-pg-store/src/slug.rs:22-41 | the slug is these words joined by dashes, cut to 80 characters or, where that would end in a dash, 79 |
| Slug.SlugsAreFixed | crates/qpedia-pg-store/src/slug.rs:22-41 | a string is a slug if and only if slugifying leaves it alone |
| Slug.SegmentsOfRender | crates/qpedia-pg-store/src/slug.rs:116-129 | reading a slugified path gives its segments back |
| Slug.FolderIsIdempotent | crates/qpedia-pg-store/src/slug.rs:116-129 | slugifying a folder path twice is slugifying it once |
| Slug.CandidateReads | crates/qpedia-pg-store/src/slug.rs:154-164 | the first candidate is the name, each later one the name, a dash and its number |
| Slug.CandidatesDiffer | crates/qpedia-pg-store/src/slug.rs:154-164 | the probed names are pairwise distinct |
| Slug.ProbeUnique | crates/qpedia-pg-store/src/slug.rs:141-172 | the first free candidate, or a failure only when all 999 are taken |
| Slug.FailureNeedsManyNames | crates/qpedia-pg-store/src/slug.rs:15-17 | probing fails only if at least 999 names are taken |
| Slug.FreeName | crates/qpedia-pg-store/src/slug.rs:46-64 | with fewer taken names a free one is found, the plain slug if that is free |
| FolderAcl.Candidates | crates/qpedia-pg-store/src/folder_acls.rs:79-92 | the cursor loop yields exactly the folder and its ancestors, from the closest to the root |
| FolderAcl.AncestorsAreSegmentPrefixes | crates/qpedia-pg-store/src/folder_acls.rs:79-92 | a folder is in the chain if and only if its segments are a prefix |
| FolderAcl.LongestIsClosest | crates/qpedia-pg-store/src/folder_acls.rs:94-98 | the longest stored match is the closest ancestor's |
| FolderAcl.ResolveFolderAcl | crates/qpedia-pg-store/src/folder_acls.rs:78-107 | the answer is that of the walk from the folder to the root |
| FolderAcl.StoredListGoverns | crates/qpedia-pg-store/src/folder_acls.rs:35-76 | setting a list, under any spelling of the folder, changes the answer of exactly the folder and those below it that have none closer; deleting it gives these back to the folder's parent |
| Percent.UrlEncode | crates/qpedia-connectors/src/oauth.rs:134-145 | the byte loop computes the encoding |
| Percent.UnreservedCodes | crates/qpedia-connectors/src/oauth.rs:137-141 | which bytes stand for themselves |
| Percent.DecodeInvertsEncode | crates/qpedia-connectors/src/oauth.rs:134-145 | percent-decoding inverts it on every byte string |
| Percent.EncodedAlphabet | crates/qpedia-connectors/src/oauth.rs:134-145 | a text is the encoding of some bytes if and only if it consists of unreserved characters and of percent signs with two upper-case hexadecimal digits of another byte |
| Percent.QueryRoundTrip | crates/qpedia-connectors/src/oauth.rs:43-58 | splitting a query on & and = recovers the parameter list |
| Percent.ConsentUrlRoundTrip | crates/qpedia-connectors/src/oauth.rs:42-60 | the consent URL parses back to exactly its parameters, whatever the inputs hold |
| Percent.ConsentUrlSays | crates/qpedia-connectors/src/oauth.rs:42-60 | read back, the URL holds the seven parameters by name, the fixed ones with their values |
| Gather.Gatherer.ExecuteTool | crates/qpedia-retriever/src/lib.rs:323-346 | a page is loaded once, cut to the characters allowed |
| Gather.Gatherer.GatherPages | crates/qpedia-retriever/src/lib.rs:234-274 | the turn and call loops are the run of the specification |
| Gather.GatherBudget | crates/qpedia-retriever/src/lib.rs:234-346 | at most 8 pages, each the beginning of its page; bytes counted are bytes stored, at most 31,023 for one-byte characters and 120,000 for any text |
| Gather.TurnLoadsWhatIsAsked | crates/qpedia-retriever/src/lib.rs:323-346 | readable pages asked for within 8 pages and 30,000 bytes are all loaded, and whole |
| Gather.SixTurnsAreHeard | crates/qpedia-retriever/src/lib.rs:234-274 | a model that goes on calling gathers what its calls of the first six turns gather as one list |
| Gather.BudgetIsKeptExactly | crates/qpedia-retriever/src/lib.rs:234-346 | a run stays within 30,000 bytes if and only if no load it makes takes more bytes than are left |
| Gather.OverstepsExactly | crates/qpedia-retriever/src/lib.rs:335-337 | for any text, a load does so exactly when the page has no more characters than bytes are left but more bytes, or has more characters and either less than the floor is left or one of the first takes more than one byte |
| Gather.NarrowOversteps | crates/qpedia-retriever/src/lib.rs:335-337 | so for one-byte text exactly when less than the floor is left and the page has more |
| Gather.FloorOvershoots | crates/qpedia-retriever/src/lib.rs:335-337 | 31,023 is reached |
| Gather.WideCharactersOvershoot | crates/qpedia-retriever/src/lib.rs:335-337 | 120,000 is reached |
| Rerank.SortPositions | crates/qpedia-retriever/src/lib.rs:412-417 | every position once, by falling score, equal scores in fused order |
| Rerank.OrderIsComplete | crates/qpedia-retriever/src/lib.rs:412-417 | such an order is as long as the hits: none is lost or doubled |
| Rerank.RerankHits | crates/qpedia-retriever/src/lib.rs:397-436 | without a score for every hit the fused order is cut; with one, the hits come in score order |
| Rerank.NothingBetterIsCut | crates/qpedia-retriever/src/lib.rs:418-419 | no hit left out scores above a kept one, or as high and earlier in the fused order |

## Left out

- HTTP handlers, sign-in, connectors, extractors, git subprocesses, telemetry, the command line and model selection.
- SQL and row-level security: each statement is one atomic step on the rows of one tenant, with one clock for all workers.
- JSON decoding, UTF-8 validation, embeddings and model replies are arbitrary functions or parameters; so is the completion of frontmatter, except in `Agent.CompletionAdds` and `Faults.LargestPageIsRefused`, which use the completion the agent does.
- Floating-point rounding: scores and tokens are exact reals, and the logarithm is any positive, strictly increasing function.
- Text in the wiki modules is ASCII, so a character is a byte and white space is ASCII white space; `Gather` and `Percent` count real bytes.
- Paths are of characters that git and the listing show as they are: none that git quotes, no backslash, no white space at an end. A path that runs through a file, or names a folder, is not written to or read.
- Partial failure inside a commit, and two workers editing one tenant's wiki at once: a commit is atomic and wiki histories are sequential.
- A crash between a commit and the status write that follows it, after which the agent runs a second time: `Ingest` sees the statuses only.
- Two ingests of one source at once share its status in `Pipeline`, but not the wiki: what both do to the pages is not modelled.
- A link of index.md that spans two lines is not seen by the line filter, and `Remove.IndexIsClean` is about links within a line.
- What the agent's tools answer, such as `read_page` showing the first staged version of a page; only staging is modelled.
- The one-shot search gathering falls back to when nothing was loaded, whose pages are not cut.
- Which page of equal score comes first in `Fusion`, and how the index database ranks a page in each list.
- Skipped-row warnings of the rebuild: an upsert never fails here.
- The text of log entries and commit messages: an entry is any text.
- Wiki.WikiRepo.ChangedInHead: answers a set, so not the order of the paths; and git shows a page deleted beside a similar new one as renamed, by the new name only. No caller sees the difference, for deleted pages are passed over.
- Index.IndexAgreement: is about pages outside the bot's own, because a removal that only deletes does not embed index.md and log.md; and about histories that write no unreadable file called just `.md`, which git lists as changed and the listing does not show: such a file fails one embedding without being a page.
- Closure.RemovalKeepsClosedExactly: is about wikis whose rewritten pages close, on each frontmatter line, the links opened there, and whose ids hold no `[`; the rewrite of others can open or close a link across lines.
