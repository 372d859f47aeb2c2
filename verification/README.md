# Verified models of the real-estate assistant's stateful core

This project models the parts of the repository that keep state across whole
runs or carry an exact algorithm, and proves what they promise. Databases, the
embedding provider, HTTP probes, language models and clocks are values or
arbitrary outcomes handed to the model; every theorem holds for all of them.

`dafny verify dfyconfig.toml` checks everything.

| File | What it models |
|---|---|
| `Common`, `Text`, `Filtering`, `Decimal` | shared vocabulary, Python's string, filter and integer text functions |
| `MediaUrl`, `MediaKeys`, `CdnMigration` | moving stored media URLs to one origin per project: parse and build, which texts they take and what they make of them, plan, guarded updates |
| `CdnFixpoint`, `CdnAgain`, `CdnRollback`, `CdnCases` | when one pass settles the table, when a second run writes again, when the rollback script undoes the pass, and inputs at which it does not |
| `ReembedModel`, `ReembedRuns`, `ReembedLosses`, `Reembed`, `ReembedReplies`, `ReembedMeaning` | the re-embedding job: durable state and crash steps, what every history keeps, exactly when a history can lose a row, the loops themselves, what they make of a provider, which rows and which checkpoint records count |
| `LeadRouting`, `LeadActions`, `LeadOutcomes`, `LeadTermination`, `LeadInterleaving`, `LeadAlone` | least-recently-served routing, broker actions, what each leaves behind, why they end, what survives interleaving, and that requests run alone are the whole actions |
| `Recency`, `ConvState`, `ConvRuns`, `ConvFunnel` | the context cache as an LRU, the pacing of hints, where the funnel stands after any events |
| `SplitTail`, `SplitMeaning` | the greedy line packer of the corpus builders, the lines and sections of a text |
| `FactTargets`, `Placeholder`, `IngestLoad`, `IngestRuns`, `IngestFacts` | which chunk a fact goes to, the fact tokens, versioned loading into two stores, where stored facts stand |
| `QueryPipeline`, `QueryRuns`, `QuerySteps`, `QueryTurns` | three concurrent legs, the join, verify-before-delivery, what a turn calls, stores, flags and sends |
| `RagLeg`, `QueryDegradation` | the retrieval backend with its reason codes, and no silent degradation |
| `Base64Url`, `AnonIdentity`, `MintLimiter` | base64url segments, signed anonymous tokens, the fixed-window limiter |
| `TrainingCursor`, `LeadsPaging` | keyset cursors and the paged leads list |
| `RevealLimiter` | the sliding-window limiter of phone reveals |

## How the models are built

Code that computes a value is a function; a loop or an object that changes in
place is a method or a class whose contract ties its result to such a function;
a protocol is a step system whose runs are sequences of states. Concurrency is
modelled by letting any enabled step come next, failures by letting a run stop
or an operation fail wherever the source can. `CdnMigration.ImagesTable`,
`LeadActions.LeadRepository`, `ConvState.ContextCache`, `Reembed.Checkpoint`,
`IngestLoad.Registry`, `QuerySteps.RagQueryWorkflow` and the two limiter classes
are the objects the source mutates.

## Where the code differs from what is said about it

* The migration's header says rows healthy on any mapped origin are never
  rewritten. The code keeps a row only when it is healthy on the origin chosen
  for its project; the model follows the code.
* One applied migration pass is a fixpoint exactly when every rewritten row is
  stored without white space around its URL and every rewritten key is still
  there after its new URL is parsed (a key such as `?x` is not):
  `CdnFixpoint.OnePassIsFixpoint`, where a padded URL must have been probed and
  belong to no other row; `CdnAgain.SettlesExactlyWhen` has the condition for any
  table. A padded URL is planned but never updated
  (`CdnFixpoint.PaddedRowNeverMoves`), and such a row left behind is all that can
  make a second `--execute` write: `CdnAgain.WritesAgainExactlyWhen` says exactly
  when, `CdnCases.SharedPaddedUrlMovesAgain` shows that it happens.
* The rollback script is written without escaping. Read statement by statement,
  it restores the table exactly when no rewritten URL or id holds a quote, no
  rewritten URL was padded, and no row was moved onto a URL an earlier rewrite
  vacated: `CdnRollback.RollbackUndoesApply`, for plans that do not have both
  padding and quotes. `CdnCases` has a plan that fails for its quote, one that
  fails for a reused URL, and one in which padding hides a quote.
* The re-embedding job checkpoints a whole batch even when fewer vectors than
  rows came back (`ReembedRuns.ShortReplyLosesRows` gives the exact condition for
  a batch), and a checkpoint file shared by runs into different tables hides rows
  from the later one. No history loses a row exactly when neither can happen:
  `ReembedLosses.LosslessExactly`. In this repository both need help from outside:
  the embedder refuses an answer of the wrong length (ingest/lightrag_init.py:132),
  which is enough (`ReembedReplies.CheckedIsLossless`), and the default name of the
  checkpoint file carries the target suffix (scripts/reembed_embeddings.py:710-713),
  so that only an explicit `--checkpoint` is ever shared. The rate-limit abort is
  swallowed by the batch splitter for batches of more than one row, which are
  first tried row by row.
* The update guard of a broker action looks at the owner only, so two
  overlapping requests of one owner can touch a closed lead
  (`LeadInterleaving.OverlapReopensClosedLead`): exactly when one of them closes
  it (`OverlapTouchesExactlyWhen`), and in a run exactly when a request is
  overtaken by a closing one of the same owner (`ClosedIsTouchedExactlyWhen`).
* The loader's comment says the exclusion constraint never sees the same
  subject, fact key and policy twice. It does, exactly when one fact has no
  policy, another an empty one, and the dates of the document hold a day:
  `FactTargets.RowsClashExactlyWhen`.
* Loading a document into another LightRAG workspace leaves the ids of the old
  one behind: `IngestRuns.MovedWorkspaceLeavesStaleIds`; `IngestRuns.AgreementExactly`
  gives the exact condition under which a load leaves both stores in agreement.
* A reveal limiter with two or more requests pending at once and a window of more
  than a second can deny a caller again after the wait it asked for
  (`RevealLimiter.ToldWaitCanBeTooShort`); otherwise the wait always suffices
  (`RevealLimiter.WaitSufficesExactlyWhen`). With a limit of zero `check` raises
  IndexError; the model returns None there.
* The step of the retrieval leg would hide a degraded result from a backend that
  gives blank reasons only, and from no other
  (`QueryRuns.DegradedLegsAreFlaggedExactly`). The one backend there is always
  names a reason that is not blank (`RagLeg.DegradedHasReasons`), so in this
  repository no leg is degraded in silence: `QueryDegradation.NoSilentDegradation`.
* The pieces of the line packer rejoin to the text exactly when newlines are its
  only line breaks, it does not end in one, and no empty line meets an empty or a
  full buffer: `SplitTail.PiecesRejoin`.
* A body line of only white space can become an empty section, because a piece
  is stripped after it is cut.

## Model

| member | source | states |
|---|---|---|
| MediaUrl.ParseOfBuild | scripts/migrate_cdn_origins.py:85-147 | A URL built from a configured origin and a key is taken apart into the same text, the same origin and the whole decoded key, exactly when the key survives its own parsing |
| MediaKeys.KeyIsWholePath | scripts/migrate_cdn_origins.py:85-107 | A URL of a bare origin, a slash and a path, directories included, with nothing to trim, delete, cut off or decode, comes apart into exactly that origin and that whole path |
| MediaKeys.ParseExactly | scripts/migrate_cdn_origins.py:85-107 | A text of a scheme, an authority and a path is accepted exactly when the scheme is http or https in any case, a host is there, credentials are not, and decoding leaves a key; scheme and authority are lowered |
| MediaKeys.LineEndsAreDeleted | scripts/migrate_cdn_origins.py:95-104 | Tabs and line ends inside a key are deleted wherever they stand |
| MediaKeys.KeyEndsThere | scripts/migrate_cdn_origins.py:95-104 | A query or fragment mark ends the key |
| MediaKeys.BuildExactly | scripts/migrate_cdn_origins.py:110-147 | Joining a configured origin and a key gives the two with a slash between, exactly when the trimmed key is not empty, holds no second "://" and has no empty, dot or dot-dot segment |
| MediaKeys.OriginIsRefused | scripts/migrate_cdn_origins.py:120-134 | Nothing is built on an origin of another scheme, without a host, or with credentials, a path, a query or a fragment |
| MediaKeys.SafeExactlyWhen | scripts/migrate_cdn_origins.py:137-139 | The segment test passes exactly when no stretch between slashes, backslashes or ends is empty, a dot or two dots |
| CdnMigration.SourceUrlsAreLawful | scripts/migrate_cdn_origins.py:79-147 | The script's own parse and build functions meet every law the planning theorems rely on |
| CdnMigration.PlanRows | scripts/migrate_cdn_origins.py:208-229 | The loop plans every row in order as the per-row decision says |
| CdnMigration.BuildPlan | scripts/migrate_cdn_origins.py:370-413 | The loops over rows, probes and candidates produce the plan of the specification, and the second round takes pending URLs up to the cap |
| CdnMigration.ImagesTable.ApplyRewrites | scripts/migrate_cdn_origins.py:478-497 | One transaction of guarded updates: all of them and their row count, or nothing at all |
| CdnFixpoint.FirstInIsLeast | scripts/migrate_cdn_origins.py:349-367 | The chosen origin is allowed and healthy, and no allowed origin before it is healthy |
| CdnFixpoint.RewriteKeepsThePath | scripts/migrate_cdn_origins.py:165-229 | With the script's own URL functions a row stored at an origin and a plain path is planned under that whole path, and a rewrite leads to the chosen origin, a slash and the same path |
| CdnFixpoint.ReasonsAre | scripts/migrate_cdn_origins.py:165-229 | Each reason is given for its own cause and no other, with the row's identity, project and status, and the verified 200 on rewrites only |
| CdnFixpoint.InventoryExactly | scripts/migrate_cdn_origins.py:370-413 | The first round probes exactly the trimmed URLs of rows that parse and have a project, each for the project of its first row |
| CdnFixpoint.ChoiceIsStable | scripts/migrate_cdn_origins.py:349-367 | Losing healthy origins other than the chosen one does not change the choice |
| CdnFixpoint.AfterIsMoved | scripts/migrate_cdn_origins.py:478-497 | Every row is moved by its own plan and by no other |
| CdnFixpoint.PaddedRowNeverMoves | scripts/migrate_cdn_origins.py:478-497 | A row whose URL is stored with white space around it is never touched by the guarded update |
| CdnFixpoint.HealthIsEvidence | scripts/migrate_cdn_origins.py:370-413 | A 200 in the evidence is a 200 of the URL itself, and the second round takes none of the first round's away |
| CdnFixpoint.OnePassIsFixpoint | scripts/migrate_cdn_origins.py:165-229 | After an applied plan without rows to review, planning again picks the same origins and keeps every row, exactly when every rewritten row is stored trimmed and every rewritten key survives its new URL; a padded row counts when it was probed and no other row has its URL |
| CdnFixpoint.ExecuteIsIdempotent | scripts/migrate_cdn_origins.py:524-584 | Executing the migration again changes nothing, when every row to rewrite is stored trimmed, or no two rows share a URL before and after and all were probed |
| CdnAgain.WritesAgainExactlyWhen | scripts/migrate_cdn_origins.py:370-584 | On any table a second run writes exactly when its plan applies and, for some trimmed row, a padded row left behind has opened an earlier origin for its project or taken over the probe of its URL in vain |
| CdnAgain.SettlesExactlyWhen | scripts/migrate_cdn_origins.py:165-413 | On any table the next plan keeps every row and choice exactly when rewritten keys survive, no row left behind opens an earlier origin or takes over a probe in vain, and each row left behind is in place and seen after all |
| CdnAgain.ChoiceStaysExactlyWhen | scripts/migrate_cdn_origins.py:349-367 | A project whose origin is still healthy is given another one exactly when a padded row left behind opens an earlier one |
| CdnAgain.SecondRoundAgrees | scripts/migrate_cdn_origins.py:370-413 | The second probe round never changes whether a stored URL counts as healthy |
| CdnCases.PlainUrl | scripts/migrate_cdn_origins.py:85-147 | An origin and a key of letters and quotes, joined with a slash, meet the condition of the whole-path theorem and come apart as they were |
| CdnCases.FourRowsExist | scripts/migrate_cdn_origins.py:79-147 | The four-row tables of the next row exist under the script's own parse and build, for any three origins and three keys |
| CdnCases.SharedPaddedUrlMovesAgain | scripts/migrate_cdn_origins.py:370-497 | With a URL stored twice, once padded, a first run takes the trimmed row away, and a second run moves another row |
| CdnFixpoint.ApplyTwiceIsApplyOnce | scripts/migrate_cdn_origins.py:478-497 | Applying the same plan twice equals applying it once, and the second time touches no row |
| CdnRollback.RollbackExport | scripts/migrate_cdn_origins.py:457-475 | The SQL file is BEGIN, one unescaped statement per rewrite in plan order, COMMIT |
| CdnRollback.StatementIs | scripts/migrate_cdn_origins.py:467-471 | A rollback line, letter by letter |
| CdnRollback.ScriptMeans | scripts/migrate_cdn_origins.py:457-475 | Without quotes, running that text sets each id back to its old URL, in plan order |
| CdnRollback.ReadShortens | scripts/migrate_cdn_origins.py:467-471 | A statement that can be read at all names a URL and an id that are shorter together by half of its quotes |
| CdnRollback.QuotedIsNotRestored | scripts/migrate_cdn_origins.py:457-475 | A moved row whose statement holds a quote is never given back, whatever the other statements are |
| CdnRollback.RollbackUndoesApply | scripts/migrate_cdn_origins.py:457-475 | Running the exported script after apply restores the table exactly when no statement holds a quote, no rewritten URL was padded and none reuses a URL an earlier rewrite vacated; padding and quotes not both |
| CdnRollback.RollbackCollides | scripts/migrate_cdn_origins.py:457-475 | A reused URL makes the rollback script stop at the UNIQUE constraint |
| CdnCases.TwoRowsExist | scripts/migrate_cdn_origins.py:79-147 | The two-row tables of the next two rows exist under the script's own parse and build |
| CdnCases.QuoteBreaksRollback | scripts/migrate_cdn_origins.py:457-475 | A quote in the key or id of one planned rewrite, and nothing else amiss, keeps the script from restoring the table |
| CdnCases.PaddingMayHideQuotes | scripts/migrate_cdn_origins.py:457-475 | A padded row with a doubled quote in its id: neither moved nor touched by the script |
| CdnCases.ThreeRowsExist | scripts/migrate_cdn_origins.py:79-147 | The three-row tables of the next row exist under the script's own parse and build |
| CdnCases.PlannedReuseBreaksRollback | scripts/migrate_cdn_origins.py:370-475 | Two projects sharing an origin: the script's own plan moves a row onto a URL just vacated, applies, and cannot be rolled back |
| ReembedRuns.NoRowIsLost | scripts/reembed_embeddings.py:528-577 | Over any sequence of runs into the same tables cut anywhere, at least one vector coming back per text: the target only grows, every checkpointed key is in it, updated plus failed is what was considered, and a run ending without failure leaves every non-blank in-scope row embedded; every vector is its own row's if just the right ones come back |
| ReembedRuns.StepKeeps | scripts/reembed_embeddings.py:219-270 | Every single step, crashes included, keeps the invariant that links target, checkpoint file and run |
| ReembedRuns.StepGrows | scripts/reembed_embeddings.py:528-577 | No step removes or overwrites an entry of the target |
| ReembedRuns.AppendMarks | scripts/reembed_embeddings.py:255-265 | Appending keys to the checkpoint marks no other key as done |
| ReembedRuns.CutAppendMarks | scripts/reembed_embeddings.py:228-265 | An append cut anywhere marks no key but the appended ones |
| ReembedRuns.ShortReplyLosesRows | scripts/reembed_embeddings.py:528-577 | What a batch of new rows leaves checkpointed is all in the target exactly when no fewer vectors than rows came back |
| ReembedLosses.ShortReplyHistory | scripts/reembed_embeddings.py:528-577 | For any batch a run can ask for and any reply to it that may be short there is a history that ends without failure and without a wanted row |
| ReembedLosses.SharedCheckpointHistory | scripts/reembed_embeddings.py:219-268 | So there is for any two settings with different target tables over one checkpoint file, given a row the second can get answered |
| ReembedLosses.LosslessExactly | scripts/reembed_embeddings.py:219-577 | No history loses a row exactly when every reply that may come back holds a vector for each row of its batch and all settings over the file write to the same tables |
| ReembedLosses.SameSpaceIsLossless | scripts/reembed_embeddings.py:228-254 | Settings whose checkpoint headers match lose no row |
| ReembedRuns.PlannedRowsAreNeverSkipped | scripts/reembed_embeddings.py:315-337 | While all runs write to the same tables, a freshly planned row is never hidden by the checkpoint |
| Reembed.RateLimitGuard.On429 | scripts/reembed_embeddings.py:161-177 | Counts consecutive 429s and aborts exactly at the limit |
| Reembed.EmbedWithBackoff | scripts/reembed_embeddings.py:119-158 | At most max_tries calls: every one but the last raised a transient class or a status of 500 or more; a failure before the last try was neither; the last answer decides, 429s are counted, and each sleep is the told or doubled delay under its cap |
| Reembed.EmbedBatchResilient | scripts/reembed_embeddings.py:180-213 | Ends with in-order vectors, a permanent failure or the abort, within 2n - 1 requests for n rows; against a provider that only refuses more than some limit of texts it succeeds at the cost of halving, and against one that never answers 400 within n + 1 |
| Reembed.EmbedHalves | scripts/reembed_embeddings.py:195-203 | A 400 on a batch of several rows is answered by the left and then the right half, whose vectors follow each other |
| Reembed.PauseIs | scripts/reembed_embeddings.py:116-158 | The pause before a retry is what the provider told, else 1, 2, 4, 8, 16, 32 and then 60 seconds, and never over 60 |
| Reembed.EmbedRowByRow | scripts/reembed_embeddings.py:204-212 | The row-by-row fallback keeps the same promises in at most n requests |
| Reembed.Checkpoint.constructor | scripts/reembed_embeddings.py:219-254 | Opening writes the header into a fresh file and holds what a load of the file yields |
| Reembed.Checkpoint.Add | scripts/reembed_embeddings.py:255-268 | Keys are appended to the file as whole lines and remembered |
| Reembed.VectorStore.UpsertBatch | scripts/reembed_embeddings.py:528-577 | One transaction writes the zipped rows and vectors |
| Reembed.ProcessBatch | scripts/reembed_embeddings.py:528-577 | One batch is a stretch of steps: commit then checkpoint, or failure, or abort |
| Reembed.ProcessPlan | scripts/reembed_embeddings.py:528-577 | Every way through the loop is a history of the step system, short replies included, and updated plus failed accounts for every row not checkpointed |
| ReembedReplies.WholeExactlyWhen | scripts/reembed_embeddings.py:180-213 | Splitting never shortens: batches come back whole exactly when every single answer does |
| ReembedReplies.CheckedIsLossless | ingest/lightrag_init.py:109-150 | Behind the embedder's length check no endpoint makes the job lose a row while all runs write to the same tables |
| ReembedMeaning.FinishedRunIsComplete | scripts/reembed_embeddings.py:315-337 | A run that ends without failure leaves no row with a text other than spaces, of its kinds and workspaces, without a vector, when replies are never short and all runs share the tables |
| ReembedMeaning.OnlyWantedIsAdded | scripts/reembed_embeddings.py:315-577 | What any step adds to the target is the text of such a row of the running run, in the tables of its own suffix |
| ReembedMeaning.TraceHoldsOnlyWanted | scripts/reembed_embeddings.py:315-577 | In every history a run only ever holds such rows |
| ReembedMeaning.LoadExactlyWhen | scripts/reembed_embeddings.py:228-254 | A checkpoint counts a key as done exactly when a record says so below a header of the same model, dimension and target, with no other header in between |
| ReembedMeaning.AppendMarksExactly | scripts/reembed_embeddings.py:255-265 | Appending to a whole file marks all keys; to one that ends in a torn line all but the first, and that line's own record is lost |
| ReembedMeaning.CutLeavesExactly | scripts/reembed_embeddings.py:228-265 | A crash leaves of an append to a whole file some of its records, and behind them nothing, a torn part of the next, or all of it without its line end |
| LeadRouting.ChoiceIsLru | api/application/services/lead_service.py:51-91 | Without a usable preference the choice is the eligible person who precedes every other in least-recently-assigned order; nobody exactly when nobody is eligible |
| LeadRouting.ChoiceIsEligible | api/application/services/lead_service.py:51-91 | Whoever is chosen is active and not excluded, preference or not |
| LeadRouting.PriorityOnlyBreaksTies | api/application/services/lead_service.py:51-91 | A higher priority is passed over only for someone served strictly longer ago |
| LeadRouting.RepeatTakesARound | api/application/services/lead_service.py:51-91 | The same person is picked again only after at least as many picks as there are people |
| LeadRouting.EveryWindowIsARound | api/application/services/lead_service.py:51-91 | Any n consecutive picks over n active people serve each of them exactly once |
| LeadOutcomes.PreferredIsChosen | api/application/services/lead_service.py:70-80 | The first eligible person with the preferred identity is chosen; an empty preference, or one nobody eligible has, changes nothing |
| LeadOutcomes.KeyLessIs | api/application/services/lead_service.py:81-91 | Never served comes first, then the earlier instant however it is written, then higher priority, then lower id |
| LeadOutcomes.NaiveIsUtc | api/application/services/lead_service.py:40-48 | A stored time without an offset is the same instant in UTC |
| LeadActions.LeadRepository.UpdateLead | api/application/services/lead_service.py:317-326 | The guarded update: changes the named row exactly when it exists and has the expected owner |
| LeadActions.LeadRepository.Assign | api/application/services/lead_service.py:101-166 | Reads tried and active people, chooses, updates under the guard, and logs only if the guard held |
| LeadActions.LeadRepository.UpdateOwned | api/application/services/lead_service.py:317-326 | The owner's update and its one log line, or neither |
| LeadActions.LeadRepository.HandleLeadAction | api/application/services/lead_service.py:329-402 | Every action, branch by branch, leaves the repository the specification says |
| LeadOutcomes.CarriedOutExactlyWhen | api/application/services/lead_service.py:329-402 | A request is carried out exactly when its broker owns the lead and the lead has one of the statuses listed for its action; it then writes that one lead, and otherwise nothing |
| LeadOutcomes.OwnAction | api/application/services/lead_service.py:329-402 | Called, callback (locked for 15 minutes), booked and lost (both closed): the row written, the one log line, and nothing else |
| LeadOutcomes.PassedOn | api/application/services/lead_service.py:101-166 | No answer: the lead is assigned to somebody active, untried and other than the broker, locked for five minutes, and that person is served now; with nobody left it expires closed; two lines, the broker's first |
| LeadOutcomes.ChosenMayTake | api/application/services/lead_service.py:101-126 | Somebody is chosen exactly when somebody active, not excluded and not yet tried on the lead is on the roster, and it is such a person |
| LeadOutcomes.LoggingServes | api/application/services/lead_service.py:126-166 | A log line counts as serving its person exactly when it assigns or escalates |
| LeadActions.LeadRepository.CreateCustomerLead | api/application/services/lead_service.py:169-223 | A new row and its unguarded first assignment, or expiry when nobody is active |
| LeadOutcomes.NewLeadIsGiven | api/application/services/lead_service.py:169-223 | A new lead goes to somebody active, locked for five minutes, with its log line and service time, or expires closed when there is nobody |
| LeadTermination.ClosedForGood | api/application/services/lead_service.py:329-402 | Over any run of uninterrupted requests a closed lead stays as it is, none of its requests succeeds and nobody is assigned to it |
| LeadTermination.ActDecreases | api/application/services/lead_service.py:329-402 | Every successful action keeps the lead's invariant and strictly decreases (untried people, status rank) |
| LeadTermination.OtherLeadsUntouched | api/application/services/lead_service.py:329-402 | Requests on other leads leave a lead, its log and its measure alone |
| LeadTermination.RunsEnd | api/application/services/lead_service.py:329-402 | In any run a lead sees at most 2 * untried + rank successful actions, and its assignees stay pairwise distinct |
| LeadTermination.CreationStartsClean | api/application/services/lead_service.py:169-223 | A created lead starts inside that invariant, assigned or expired at once |
| LeadInterleaving.LogMatchesEffects | api/application/services/lead_service.py:126-166 | However steps interleave: updates hit only for the owner at that instant, a missed guard writes no line, and finished requests have written exactly the lines their update owes, two for a no_answer and one otherwise |
| LeadInterleaving.NextKeeps | api/application/services/lead_service.py:317-402 | Every step keeps the account of written and owed lines |
| LeadInterleaving.OverlapReopensClosedLead | api/application/services/lead_service.py:317-326 | A concrete history in which two overlapping requests of one owner reopen a closed lead |
| LeadInterleaving.OverlapTouchesExactlyWhen | api/application/services/lead_service.py:317-402 | Two decided requests of a lead's owner have an order of steps that touches it closed exactly when it is closed already or one of their plans closes it |
| LeadInterleaving.TouchesClosedExactlyWhen | api/application/services/lead_service.py:317-402 | An update hits a closed lead exactly when, between its request's read and itself, another request of the same owner closed the lead and no update hit it since |
| LeadInterleaving.ClosedIsTouchedExactlyWhen | api/application/services/lead_service.py:317-402 | A run touches a closed lead exactly when it holds a request that hits after being overtaken by a closing one of the same owner |
| LeadInterleaving.SerialKeepsClosed | api/application/services/lead_service.py:317-402 | While no owner overlaps two requests on one lead, closed leads are never touched again |
| LeadAlone.AloneIsAct | api/application/services/lead_service.py:329-402 | A request whose steps no other request interrupts leaves exactly what the whole request leaves |
| LeadAlone.AloneGoesThrough | api/application/services/lead_service.py:329-402 | Nothing keeps a request that is alone from going through, within seven steps |
| Recency.AccessKeepsRecency | api/application/services/conv_state.py:33-41 | touch and put keep the key order equal to the distinct keys by last access, cut at the limit |
| Recency.TouchedThenPut | api/application/services/conv_state.py:33-41 | Moving a cached key to the end, or appending and evicting the first, are the same access operation |
| ConvState.ContextCache.Touch | api/application/services/conv_state.py:34-37 | An existing key moves to the end of the order |
| ConvState.ContextCache.Put | api/application/services/conv_state.py:38-41 | Assignment keeps the place of an existing key; over the limit the first key goes |
| ConvState.ContextCache.GetContext | api/application/services/conv_state.py:100-114 | The order stays recency order over at most 512 keys, and a fresh context is created exactly when the key is not among the recent ones or its context is over two hours old |
| ConvState.ContextCache.MarkPhoneGiven | api/application/services/conv_state.py:117-122 | Counts as an access, marks the cached context if it is recent and within its TTL and a fresh one otherwise, and leaves the others |
| ConvState.ConvContext.Advance | api/application/services/conv_state.py:135-164 | The in-place transition does what the funnel function says |
| ConvState.ConvContext.MaybeLeadCtaHint | api/application/services/conv_state.py:167-182 | Shows the next variant exactly when the gates allow it, and records it |
| ConvRuns.FunnelNeverFalls | api/application/services/conv_state.py:135-164 | The funnel rank never falls, and handoff is never left |
| ConvRuns.HintsArePaced | api/application/services/conv_state.py:167-187 | At most three hints, in order, two turns apart; none before a useful turn, after the phone number, or while review is due |
| ConvRuns.HintShownExactlyWhen | api/application/services/conv_state.py:167-182 | With those gates open a hint is shown: the conditions are exact |
| ConvFunnel.FunnelTable | api/application/services/conv_state.py:135-164 | Where any turn outside the side-tracks leads after any events: handed off stays, an answered affordability question recommends, a new slot or three useful turns without a phone number qualifies or goes on, else nothing moves |
| ConvFunnel.SideTracksStay | api/application/services/conv_state.py:150-153 | Legal, other, location and closing turns leave the funnel alone |
| ConvFunnel.CountersTell | api/application/services/conv_state.py:150-187 | The turn count is the number of turns, side-tracks among them, and the useful count that of useful ones |
| ConvFunnel.OtherEventsStay | api/application/services/conv_state.py:117-187 | Of all else only storing a lead moves the funnel, to handoff |
| ConvFunnel.HandoffExactlyWhen | api/application/services/conv_state.py:117-164 | A conversation is handed off exactly when a lead was stored for it |
| ConvFunnel.RecommendsAfterAnswer | api/application/services/conv_state.py:135-164 | Nothing is recommended or nurtured before an affordability question was answered |
| ConvFunnel.NurturesAfterThree | api/application/services/conv_state.py:135-164 | Nurturing starts only after three useful turns without a phone number |
| SplitTail.SplitTail | ingest/camellia_docs.py:117-129 | The loop returns the pieces of the greedy packing |
| SplitTail.GroupsKeepLines | ingest/camellia_docs.py:117-129 | All non-blank lines survive in order; without blank lines, all lines |
| SplitTail.PieceOverCapIsLine | ingest/camellia_docs.py:117-129 | A piece over the cap is a single line |
| SplitTail.PiecesWithinCap | ingest/camellia_docs.py:117-129 | When every line fits, every piece does |
| SplitTail.PiecesRejoin | ingest/camellia_docs.py:117-129 | The pieces joined by newlines are the text again exactly when newlines are its only line breaks, it does not end in one, and no empty line meets an empty or a full buffer |
| SplitTail.GreedyIsOptimal | ingest/camellia_docs.py:117-129 | No packing into contiguous runs within the cap uses fewer pieces |
| SplitTail.GreedyIsAPacking | ingest/camellia_docs.py:117-129 | When every line fits, the greedy pieces are such a packing |
| SplitTail.Sections | ingest/camellia_docs.py:132-146 | The loop over titled bodies returns their sections in order |
| SplitTail.SectionsWithinCap | ingest/camellia_docs.py:132-146 | A section keeps its title, and one over the cap is a single stripped line |
| SplitMeaning.LinesAre | ingest/camellia_docs.py:117-121 | The lines packed: what stands before the first break, then those behind it; CR LF is one break, a text without a break one line unless empty |
| SplitMeaning.SectionsAre | ingest/camellia_docs.py:132-146 | A blank body gives no section, one within the cap itself stripped, a longer one the stripped pieces, which hold all its visible lines in order |
| SplitMeaning.OneMoreBody | ingest/camellia_docs.py:132-146 | The sections of each body follow those of the bodies before |
| FactTargets.AssignFacts | ingest/load.py:263-276 | The nested loop fills the dictionary with the targets of the specification, in insertion order |
| IngestFacts.ContainsExactlyWhen | ingest/load.py:273 | The span test holds exactly when the chunk is some text, the span, and some text |
| IngestFacts.PunctuationDoesNotCount | ingest/load.py:40-42 | A dot or dash more in the subject makes no other key |
| IngestFacts.NothingElseIsLost | ingest/load.py:40-42 | Without dots and dashes the key is the trimmed subject in lower case |
| FactTargets.TargetIsLeast | ingest/load.py:263-276 | An entry is a pair that fits and has its key, no fitting pair with the key comes before it, and no other entry has the key |
| FactTargets.OneTargetPerKey | ingest/load.py:263-276 | The stored keys are exactly those that fit some chunk, each once, so rows number as many as such keys |
| FactTargets.GroupByChunk | ingest/load.py:278-280 | Grouping by chunk keeps each chunk's entries in order |
| FactTargets.RowsAreTargets | ingest/load.py:278-304 | Inserting chunk by chunk inserts every entry once, in the order of the nested loop |
| FactTargets.RowsClashExactlyWhen | db/schema.sql:182-190 | Rows of one load clash under the exclusion constraint exactly when a missing policy meets an empty one and the date range is not empty |
| Placeholder.MatchReads | ingest/placeholder.py:18-30 | The pattern reads a printed token of a well-formed reference, and nothing more |
| Placeholder.MatchFinds | ingest/placeholder.py:18-30 | Whatever the pattern matches is the printed token of a well-formed reference |
| Placeholder.WellFormedExactlyWhen | ingest/placeholder.py:18-30 | Which references are well formed: keys and policies of ASCII letters, digits, `_`, `.`, `-`; subjects of anything but `#` and the closing bracket; none empty |
| Placeholder.TokenIs | ingest/placeholder.py:18-36 | A token letter by letter, with a policy and without |
| Placeholder.ScanLosesNothing | ingest/placeholder.py:56-61 | Scanning any text cuts it into tokens and characters without losing one |
| Placeholder.SanitizedIsInert | ingest/placeholder.py:33-36 | Sanitized text neither opens nor closes a token, whatever the source held |
| Placeholder.ExtractedAreWellFormed | ingest/placeholder.py:56-61 | Every extracted reference is well formed |
| Placeholder.ExtractUndoesAnnotate | ingest/placeholder.py:33-61 | Extracting from annotated sanitized text returns exactly the references, if and only if all are well formed |
| Placeholder.ResolveAnnotated | ingest/placeholder.py:74-88 | Hydration yields the values, then a newline and the sanitized text; the text alone when there is no reference |
| IngestLoad.Registry.LoadDocument | ingest/load.py:158-369 | A load is refused, rolled back or committed exactly when the source says, the exclusion constraint included, leaves the specified tables and store, and reports version, counts and publication |
| IngestLoad.Registry.Transact | ingest/load.py:203-328 | The transaction commits exactly when no statement raises and the exclusion constraint lets every fact in, with the version, chunks and facts of the specification |
| IngestLoad.Registry.InsertChunks | ingest/load.py:284-304 | Every chunk is inserted, followed by its facts |
| IngestLoad.Registry.Publish | ingest/load.py:331-360 | Old ids are deleted when there was a version before, then the new texts are inserted; cut short, nothing else is touched |
| IngestRuns.VersionCountsCommits | ingest/load.py:203-237 | The version rises by exactly one for every committed load of the document |
| IngestRuns.ChunksAreExact | ingest/load.py:237-258 | After any run a document's chunks are exactly doc:version:0 to n-1 of its last committed load, with its texts |
| IngestRuns.FactsAlwaysPointHome | ingest/load.py:239-258 | Over any run every fact with a chunk id points at a current chunk of its own document |
| IngestRuns.LoadedFactsAreExact | ingest/load.py:239-304 | The loader's facts of a document are those of its last committed load and no others |
| IngestFacts.StoredFactsAreWellPlaced | ingest/load.py:263-304 | After any run every loader fact of a document comes from a fact of its last committed load, with its key and dates, under the current version of a section that mentions its span or for want of a span, no fitting pair of section and fact with that key coming before |
| IngestFacts.EveryKeyIsStoredOnce | ingest/load.py:263-304 | And every key of such a pair is stored exactly once |
| IngestFacts.RefusedExactlyWhen | ingest/load.py:185-193 | A load is refused exactly when it brings facts although seeds are to be kept, or names an unknown status; what does not commit changes nothing |
| IngestRuns.SeedsSurviveExactly | ingest/load.py:251-257 | Seeded facts survive a run exactly while every commit of the document preserved them |
| IngestRuns.AgreementExactly | ingest/load.py:331-360 | A load whose post-commit step succeeded leaves both stores in agreement exactly when LightRAG held nothing stale |
| IngestRuns.StoresAgree | ingest/load.py:331-360 | If every post-commit step succeeded in one workspace, LightRAG's ids for the document equal the registry's |
| IngestRuns.MovedWorkspaceLeavesStaleIds | ingest/load.py:342-351 | A load into another workspace leaves the old ids behind |
| IngestRuns.AcceptsAllExactly | db/schema.sql:182-190 | Rows are let in one by one exactly when their date ranges can be built and no two, old or new, clash |
| IngestRuns.FactsNeverClash | db/schema.sql:182-190 | Over any run the facts table holds no two rows the constraint keeps apart |
| IngestRuns.LoadFitsExactlyWhen | ingest/load.py:239-304 | The constraint lets a load in exactly when it inserts nothing, or its dates make a range, its rows clash with none that stays, and it does not mix missing and empty policies over dates that hold a day |
| IngestRuns.LightNamesItsFacts | ingest/load.py:352-360 | After a published load, extraction from the text LightRAG holds for each current chunk returns that chunk's facts, if and only if their references are well formed |
| IngestFacts.LightNamesStoredFacts | ingest/load.py:331-360 | The text LightRAG then holds for a section names its facts by the key, subject and policy of the request, in order, if all can be written |
| IngestRuns.RenderedTextNamesItsFacts | ingest/load.py:352-358 | That text names exactly the facts stored under the chunk, if and only if their references are well formed |
| QueryRuns.StepKeepsInv | api/application/pipelines/workflow.py:271-600 | Every step of every interleaving keeps the pipeline's invariant |
| QueryRuns.JoinFiresOnceWithAllResults | api/application/pipelines/workflow.py:480-492 | The join fires at most once, and only after all three results are stored |
| QueryRuns.FramesFollowTheScript | api/application/pipelines/workflow.py:594-687 | Frames sent are a prefix of places (when asked for), sources, facts, images, token; the token frame is last, equals the stored answer, and is the generated one exactly when the guard returned other than LOW |
| QueryTurns.FramesInOrder | api/application/pipelines/workflow.py:594-687 | At any moment of any run the frames sent are the first of: the stored geo items (when asked for), the chunks the join kept, the stored sql items, the join's images, the answer; a finished turn has sent all of them |
| QueryTurns.TokenIsVerified | api/application/pipelines/workflow.py:602-687 | A token carries what the generation gave exactly when the guard gave HIGH or MEDIUM, and the safe copy when it gave LOW, raised or was late |
| QueryTurns.StoredIsReturned | api/application/pipelines/workflow.py:307-478 | In every run a done leg has stored what its backend returned, nothing and degraded if that failed or was late; one that was not called stored nothing, degraded exactly for an unresolved training turn |
| QueryTurns.CallsAreMade | api/application/pipelines/workflow.py:307-478 | A leg that is asked for and resolved has called its own backend for its own project |
| QueryTurns.JoinCalls | api/application/pipelines/workflow.py:496-592 | The join hydrates for the project read exactly when it kept chunks, which are retrieved ones, and searches images except for an unresolved training turn, which gets none |
| QueryTurns.OnlyLegsAndJoinCall | api/application/pipelines/workflow.py:307-600 | Nothing else calls anything, and beginning a leg makes its one call |
| QueryTurns.FlagsAreSet | api/application/pipelines/workflow.py:205-478 | In every run a done leg has set each flag its outcome calls for: time-out, error, reason or degraded |
| QueryTurns.HealthyIsUnnamed | api/application/pipelines/workflow.py:205-478 | A leg whose backend answered well is named by no flag |
| QueryRuns.TrainingReadsItsContextOnly | api/application/pipelines/workflow.py:110-123 | No backend call of a training turn leaves its context project, and an unresolved one makes none |
| QueryRuns.OnlyWantedBackendsAreCalled | api/application/pipelines/workflow.py:307-478 | A leg that routing did not ask for never calls its backend |
| QueryRuns.OutcomeIsFlaggedExactly | api/application/pipelines/workflow.py:307-478 | Every degraded outcome of any backend leaves a flag that tells of it, unless a retrieval backend answered with blank reasons only |
| QueryRuns.DegradedLegsAreFlaggedExactly | api/application/pipelines/workflow.py:307-478 | In every run with any backends, once a degraded leg is done, the flags tell of its outcome, unless a retrieval backend answered with blank reasons only, and then they do not |
| RagLeg.RunRagLeg | api/application/services/rag_leg.py:208-311 | Set-up, at most two query attempts and the registry filter give the outcome of the specification |
| RagLeg.DegradedExactlyWhen | api/application/services/rag_leg.py:208-311 | Retrieval is marked degraded exactly when a call failed or a found chunk was dropped; otherwise all chunks come back |
| RagLeg.DegradedHasReasons | api/application/services/rag_leg.py:235-311 | A degraded retrieval always names reasons, all of them codes and none blank |
| RagLeg.ReasonsTell | api/application/services/rag_leg.py:208-290 | Which reason a failing set-up, parameter or query gives, and that only a time-out leads to the second attempt |
| RagLeg.ChunkReasonsTell | api/application/services/rag_leg.py:290-311 | After a query: a failing filter, chunks without an id, and exactly the chunks the registry keeps |
| QueryDegradation.NoSilentDegradation | api/application/pipelines/workflow.py:307-478 | In every run with that backend, a leg that is done with a degraded result is told of by the flags |
| QueryRuns.UnresolvedTurnIsFlagged | api/application/pipelines/workflow.py:110-123 | In every run of an unresolved training turn each leg it needs fails closed with its flag set or due |
| QueryRuns.AddFlagsDistinct | api/application/pipelines/workflow.py:205-212 | Adding flags never repeats or drops one |
| QueryRuns.FlagsNeverRepeat | api/application/pipelines/workflow.py:205-212 | In every run the degradation flags are pairwise different |
| QueryRuns.NeverStuck | api/application/pipelines/workflow.py:480-484 | In every state that is neither finished nor stopped a step other than stopping can be taken |
| QueryRuns.StepsRunOut | api/application/pipelines/workflow.py:271-707 | Every step decreases a well-founded measure, so no run goes on for ever |
| QuerySteps.RagQueryWorkflow.Flag | api/application/pipelines/workflow.py:205-212 | The loop adds each new flag once, in order |
| QuerySteps.RagQueryWorkflow.RunLeg | api/application/pipelines/workflow.py:307-478 | A leg run alone stores its result, sets its flags and calls its backend as specified, and is a stretch of a run |
| QuerySteps.RagQueryWorkflow.EmitMergeFrames | api/application/pipelines/workflow.py:594-599 | The join's frames leave one at a time and may be cut anywhere |
| QuerySteps.RagQueryWorkflow.Generate | api/application/pipelines/workflow.py:602-629 | Every token is buffered, the answer is the normalized whole, and no frame leaves |
| QuerySteps.RagQueryWorkflow.OutputGuard | api/application/pipelines/workflow.py:631-707 | What is delivered, stored and sent is the generated answer if verified, the safe copy otherwise |
| QuerySteps.LegIsReached | api/application/pipelines/workflow.py:307-478 | A leg that runs undisturbed goes from request to done event by steps of the system |
| Base64Url.LettersShape | api/application/services/anon_identity.py:45-47 | Encoded text has letters of the URL-safe alphabet only, as many as RFC 4648 section 5 says |
| Base64Url.RepadUndoesStrip | api/application/services/anon_identity.py:45-52 | Restoring `-len % 4` pads (RFC 4648 section 3.2) undoes stripping them |
| Base64Url.DecodeUndoesEncode | api/application/services/crm_lead_query.py:107-126 | Decoding undoes encoding with padding kept, for every byte string |
| Base64Url.SegmentRoundTrip | api/application/services/anon_identity.py:45-52 | Decoding undoes encoding with padding stripped, for every byte string |
| Base64Url.KnownTexts | api/application/services/anon_identity.py:45-47 | Encodings of known bytes (RFC 4648 section 10) and the URL-safe letters |
| Base64Url.DecoderIsLenient | api/application/services/anon_identity.py:50-52 | The decoder reads the standard alphabet too and passes over what is no letter |
| AnonIdentity.SegmentsUndoJoin | api/application/services/anon_identity.py:75-113 | Any payload and signature joined as a token come apart again |
| AnonIdentity.MintedVerifiesExactly | api/application/services/anon_identity.py:75-153 | A minted token verifies with its own claims exactly when both secrets sign alike, the subject is a version 4 UUID and its age lies between -60 seconds and 90 days |
| AnonIdentity.FreshTokenWindow | api/application/services/anon_identity.py:75-153 | With the right secret and a fresh UUID the acceptance window is exactly t - 60 seconds to t + 90 days |
| AnonIdentity.AcceptedIsLikeMinted | api/application/services/anon_identity.py:75-153 | A token accepted once is at every time answered like the one minted for its claims, accepted from 60 seconds before to 90 days after its issue |
| AnonIdentity.VerifiesExactly | api/application/services/anon_identity.py:97-153 | Any token verifies with given claims exactly when it has two segments, the second the signature of the first, which says a version 4 UUID and a time at most 60 seconds ahead and 90 days back, and version one |
| AnonIdentity.SegmentsExactly | api/application/services/anon_identity.py:97-113 | A token comes apart exactly when it is two decodable texts without a dot joined by one |
| MintLimiter.InMemoryRateLimitStore.Check | api/application/services/anon_identity.py:180-197 | Clamps the clock, allows while the bucket is under the limit, and counts exactly the allowed calls |
| MintLimiter.AllowedWithinWindowsSpanned | api/application/services/anon_identity.py:168-197 | For any clock and any other calls, allowed calls number at most the limit times the windows the clamped clock spanned |
| MintLimiter.BucketsCountAllowedCalls | api/application/services/anon_identity.py:180-197 | A bucket counts the calls allowed into it and nothing else |
| MintLimiter.DeniedExactlyWhenSpent | api/application/services/anon_identity.py:180-197 | From a fresh store a call is denied exactly when its limit's worth of calls went into its window before |
| MintLimiter.OnlyOwnCallsCount | api/application/services/anon_identity.py:168-197 | A call is denied exactly when at least its limit of calls of its own address and kind were allowed in its window |
| MintLimiter.ClockIsLatest | api/application/services/anon_identity.py:180-197 | The clock in use is the latest wall-clock time seen |
| Decimal.ReadUndoesShow | api/application/training_history.py:50-66 | Reading undoes printing for every integer |
| TrainingCursor.ParseUndoesEncode | api/application/training_history.py:50-69 | A cursor reads back as its moment and id exactly when the moment is not negative and the id not empty, ids with bars included |
| TrainingCursor.RawIs | api/application/training_history.py:50-55 | What a cursor is made of: decimal microseconds, a bar, the id |
| TrainingCursor.EncodeIsInjective | api/application/training_history.py:50-55 | Different positions never share a cursor |
| RevealLimiter.SlidingWindowRateLimiter.Check | api/application/services/phone_reveal_rate_limit.py:46-59 | The pruned stamps decide exactly as the full history would |
| RevealLimiter.SlidingWindowRateLimiter.RecordSuccess | api/application/services/phone_reveal_rate_limit.py:61-68 | Appends one success to the actor's history and to no other's |
| RevealLimiter.PrunedLater | api/application/services/phone_reveal_rate_limit.py:46-68 | What pruning drops can never count again |
| RevealLimiter.WindowsHoldTheBudget | api/application/services/phone_reveal_rate_limit.py:89-98 | With at most c allowed checks pending, any limit + c successes span at least a window |
| RevealLimiter.DeniedThenAllowed | api/application/services/phone_reveal_rate_limit.py:46-59 | With one request at a time, a denied caller that waits as told is allowed |
| RevealLimiter.DeniedAllowedExactlyWhen | api/application/services/phone_reveal_rate_limit.py:46-59 | A denied caller is allowed later exactly when the stamp whose leaving makes room, the limit-th from the end, has left the window |
| RevealLimiter.ToldWaitCanBeTooShort | api/application/services/phone_reveal_rate_limit.py:46-98 | For every limit, any window over a second and any two or more requests at a time a run reaches a caller who is denied, waits as told and is denied again |
| RevealLimiter.WaitSufficesExactlyWhen | api/application/services/phone_reveal_rate_limit.py:46-98 | The told wait suffices in every run exactly when requests come one at a time or the window is at most a second |
| LeadsPaging.DecodeUndoesEncode | api/application/services/crm_lead_query.py:107-126 | A cursor decodes to the creation time and id it was made of |
| LeadsPaging.DecodeIs | api/application/services/crm_lead_query.py:112-126 | Any text with a bar is read as the date in front of its last bar, a final Z meaning UTC, and the id behind it, and refused exactly when one of them cannot be read |
| LeadsPaging.MakeQuery | api/application/services/crm_lead_query.py:60-75 | A limit between 1 and 100 is used as asked, one below as 1, one above as 100; filter and cursor stay |
| LeadsPaging.SearchContinues | api/infrastructure/adapters/postgres_leads.py:297-369 | Continuing after the k-th matching row yields the rows behind it |
| LeadsPaging.FollowingVisitsAllOnce | api/application/services/crm_lead_query.py:129-167 | Following next_cursor visits every visible row once, in order, in max(1, ceil(n / limit)) pages, and then stops |
| LeadsPaging.CodecVisitsAllOnce | api/application/services/crm_lead_query.py:107-167 | The same with the source's own cursor codec |
| LeadsPaging.PagesAreFull | api/application/services/crm_lead_query.py:129-167 | Each page that is followed holds the next `limit` visible rows or all that are left, and says there are more, with a cursor, exactly when rows are behind it |
| LeadsPaging.VisibleExactlyWhen | api/infrastructure/adapters/postgres_leads.py:297-369 | A row is visible exactly when it matches the filter and, for a sales principal, is assigned to them |
| LeadsPaging.CursorsAreRead | api/application/services/crm_lead_query.py:129-160 | A cursor that cannot be decoded is refused; an empty one starts at the top |
| LeadsPaging.CeilDivIsLeast | api/application/services/crm_lead_query.py:129-167 | The page count is the least whose pages hold all rows |
| LeadsPaging.SalesSeesOnlyOwn | api/application/services/crm_lead_query.py:129-160 | No page, whatever its cursor, shows a sales principal another's lead |

## Left out

- Text of SQL statements other than the rollback script, connection pools, HTTP, Firestore, push messages, storage uploads, command lines and printing.
- Language-model, embedding, rerank and image calls beyond their outcome; HMAC, SHA-256, UTF-8, JSON, UUID and ISO-date parsing are parameters with a stated round-trip law.
- IPv6 bracket checks, NFKC checks and non-ASCII lower-casing inside `urlsplit`, and Unicode digits in `int`.
- The order in which the migration's second probe round completes: the theorems hold for every set of URLs it reaches.
- Changes of the source tables between runs of the re-embedding job.
- The `images` kind of the re-embedding job, its verify command, and checkpoint key text: a key is a kind, a workspace and an id.
- RollbackUndoesApply: reads each line of the script as one statement of its own shape; other SQL that quotes in a URL or id could make of it counts as an error. Of a plan with both padding and quotes it says nothing; such a script may restore the table or not.
- RevealLimiter.SlidingWindowRateLimiter.Check: the clock is read before the lock is taken (phone_reveal_rate_limit.py:48-49), and calls are taken to arrive in clock order, as from the one event loop that makes them; RecordSuccess (lines 62-63) likewise.
- The atomic `assign_lead` adapter, the CRM status patch, lead mirrors, phone cooldown and bonus turns.
- RunsEnd: bounds the actions on a lead whose requests run one at a time; overlapping requests are in `LeadInterleaving`.
- Slot extraction and intent classification: a slot update may set the phone flag and never clears it (api/domain/services/conv_slots.py:172-187); the choice of the cache key (conv_state.py:80-97) is a parameter.
- The sweep of expired contexts, which nothing in the repository calls.
- The document builders around the line packer.
- The tables of campaigns, subjects, chunk references and log lines of a load, except as statements that can raise; a chunk id is a document, a version and an index, not their text.
- IngestLoad.Registry.LoadDocument: computes the exclusion constraint of the facts from the rows; any other violated constraint is a statement that raises.
- Agreement of the two stores after a failed post-commit step: old ids can remain.
- Texts of degradation flags, kept apart here by what raises them; the audit record and the conversation directive.
- QueryPipeline: a step's own flags and its store write are separate actions, while rerank, merge and image calls of the join are one.
- The Postgres limiter and the token service around the two functions.
- Floating-point rounding of times: clocks are reals, cursor moments integer microseconds.
- Edits of the leads table between two page requests.
- The clause splitter of the legal parser and the Vietnamese number words, whose stated properties do not hold.
