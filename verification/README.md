# ContextLattice: a verified model

Dafny models of the parts of ContextLattice whose behaviour is decided by more than one step: line rewriters that must
undo what they read, a framed pipe protocol, an outbox with workers that crash, text comparison standing in for time,
check-then-act gates under concurrency, and scripts that must be safe to run twice. `dafny verify dfyconfig.toml` checks
everything.

The modules follow the program:

| modules | what they model |
|---|---|
| `Versions`, `ComposeLines`, `LineScan`, `ComposeScan`, `ComposeMeaning`, `ComposeRewrite`, `Registry`, `ComposeAudit`, `ComposeExample` | the compose-file version audit: line patterns, scanner, registry lookup, verdicts, in-place rewriting |
| `Framing`, `Bridge`, `BridgeProtocol` | the bridge from HTTP callers to one child process over pipes |
| `FanoutQueue`, `FanoutSteps`, `FanoutAttempts`, `FanoutDelivery`, `FanoutLosses`, `FanoutHolders`, `FanoutOutbox` | the orchestrator's fan-out outbox on SQLite |
| `IsoTime`, `OutboxGc` | garbage collection of the outbox by ISO timestamp texts |
| `Gate`, `UsageBudget`, `ApiKeys`, `RateLimit` | the dashboard's limits: token budgets, API keys, sign-in attempts |
| `Archiver` | moving old history lines to cold files |
| `EnvRecords`, `FirstRun` | the `.env` editor and the first-run configuration |
| `Backfill`, `Slug`, `Reconcile` | the quiet-window wait, free workspace names, payment reconciliation |
| `Text`, `Lists`, `Order`, `Runs` | lines, white space, decimals, filters, the order of tuples, runs of a state machine |

White space, line breaks, lower-casing, JSON and ISO parsing are parameters where only their general shape matters; each
lemma states what it needs of them. Concurrency is modelled as a state machine: one awaited database statement, pipe
operation or clock reading is one step, and a run is any list of steps of any number of requests or workers.

Where the code does not do what one would expect of it, the model keeps the code's behaviour and says exactly when the
expectation holds:

- A rewritten compose file keeps the line numbers of its entries exactly when no entry moved earlier stands on a quoted
  line that ends with a break other than a line feed: the rewriter puts its line feed behind that break
  (`ComposeRewrite.LineNumberKept`, `ComposeExample.OddBreakShiftsLines`).
- Timestamp texts order like instants except within one second when exactly one of the two has no fraction; there the
  order is reversed (`IsoTime.IsoAgrees`, `OutboxGc.TextDecisionReversed`).
- Reading a key of the settings file just after setting it gives the value exactly when no line that is the bare key
  stands below the assignments (`EnvRecords.GetAfterPut`).
- Every check-then-record limit is exceeded by up to one amount less than there are overlapping requests, and that much
  is reached (`UsageBudget.BoundReached`, `ApiKeys.KeysReached`, `RateLimit.WindowReached`). Token counts may be
  negative; the budget's bound holds as long as the rows since a later month never come to more than those since an
  earlier month still in use, and fails in every state where a request finds it otherwise (`UsageBudget.BudgetBound`,
  `CreditOvershoots`). Deleting a workspace drops its budget, so requests that entered before are then unlimited
  (`UsageBudget.DeletionLiftsTheLimit`).
- A fan-out job can be tried more often than its limit: since it was last put back by force, once more for every
  recovery, for every error dealt with twice, and for every claim live at that forced requeue
  (`FanoutAttempts.AttemptsBound`, `AttemptsReached`, `HandledTwiceReached`).
- Marking a job ignores its status, so a job reported as done was delivered as it stands exactly until a payload is
  written over a row that a worker holds, or an undelivered job is reported as done where the sink may be broken
  (`FanoutDelivery.StepFaithful`, `OverwriteLosesUpdate`). Putting a row back under its worker does not break this by
  itself; it lets a second worker have the job (`FanoutHolders.StepExclusive`, `PutBackIsShared`).
- Failed jobs are collected like done ones, so once all jobs left are done an event may never have got to its sink. It
  has exactly when a row carrying it, left or deleted, is reported as done, as long as no step leaves a pushed job with
  no one to report it (`FanoutDelivery.AllDoneExactly`, `StepSettled`, `ReachedUnreported`).
- Events are lost by collecting or pruning the last unpushed row that carries them, and by the last worker of a row
  already deleted letting go of it: by failing, retrying, leaving or a restart (`FanoutLosses.StepLoses`,
  `CollectedFailureForgets`).
- Recovery runs at start-up only and skips jobs younger than its age limit; such a job stays running until another
  rescue (`FanoutHolders.OrphansStay`, `RestartRecovers`). In one process, without forced requeues and errors dealt with
  twice, no job ever has two workers (`FanoutHolders.OneProcessExclusive`, `OneProcessOneWorker`); a recovery beside a
  live worker takes a second process on the same database.
- An unapplied reconciliation counts a subscription as often as it is listed; it agrees with the applied one exactly when
  nothing that needs an update is listed twice (`Reconcile.CountedAgainstApplied`).

## Model

| member | source | states |
|---|---|---|
| `Versions.StableMeaning` | scripts/service_version_audit.py:31 | a tag is stable exactly when it spells three or four numbers joined by dots after an optional v |
| `Versions.SpelledParses` | scripts/service_version_audit.py:32 | what spells numbers, with an optional suffix opened by - or +, parses to exactly those numbers |
| `Versions.StableShape` | scripts/service_version_audit.py:31-32 | a stable tag holds digits, dots and v only, ends in a digit, and has at least three components |
| `Order.LessTrichotomy` | scripts/service_version_audit.py:286-287 | the tuple order is total and irreflexive, also on tuples of different length |
| `Order.LessTransitive` | scripts/service_version_audit.py:286-287 | the tuple order is transitive |
| `Order.LessMeaning` | scripts/service_version_audit.py:286-287 | a version is less exactly when it is a proper prefix or smaller at the first difference |
| `Versions.BestIsFirstGreatest` | scripts/service_version_audit.py:176-190 | the tag kept is the first greatest of all stable ones, and none is kept exactly when none is stable |
| `ComposeLines.MatchSound` | scripts/service_version_audit.py:249 | whatever the image pattern finds is a reading of the line: gap, quote, body, quote, blanks |
| `ComposeLines.MatchComplete` | scripts/service_version_audit.py:249 | every readable value is matched, and with the reading the greedy pattern tries first |
| `ComposeLines.ImageSound` | scripts/service_version_audit.py:309 | a matched line is its indentation, the keyword and a reading of the rest, with the three groups the rewriter uses |
| `ComposeLines.OnlyImage` | scripts/service_version_audit.py:239-249 | an image line with something solid behind it is neither a services line nor a service heading |
| `ComposeLines.SplitRefMeaning` | scripts/service_version_audit.py:98-108 | the split is the only one whose tag has no colon and no slash, and latest where there is none |
| `ComposeLines.PythonIsOrdinary` | scripts/service_version_audit.py:234 | Python's white space and line breaks meet what the patterns' lemmas ask for |
| `LineScan.ScanPieces` | scripts/service_version_audit.py:233-271 | for any line machine, scanning a rewritten file finds the same things in the same order, each as its goal |
| `LineScan.RewriteThenRescan` | scripts/service_version_audit.py:291-323 | the same after writing the text out and cutting it into lines again |
| `LineScan.AuditCached` | scripts/service_version_audit.py:355-376 | the verdicts with a cache are those without, and every key is fetched exactly once |
| `LineScan.OverwriteLines` | scripts/service_version_audit.py:301-320 | the overwriting loop gives each line its looked-up update and counts the changes |
| `LineScan.UpdateMapMeaning` | scripts/service_version_audit.py:292-302 | a line is in the table of updates exactly when some verdict about it names a target |
| `LineScan.TableIsRewrite` | scripts/service_version_audit.py:302-320 | looking lines up by number does what rewriting during the scan would do |
| `ComposeScan.LoadComposeImages` | scripts/service_version_audit.py:233-271 | the scanning loop finds exactly the entries of the line machine, with their line numbers |
| `ComposeMeaning.ServicesLineMeaning` | scripts/service_version_audit.py:239 | a services line is the word with nothing but blanks around it |
| `ComposeMeaning.HeadingMeaning` | scripts/service_version_audit.py:245 | a heading is two spaces, a name of letters, digits, underscores, dots and hyphens, a colon and blanks |
| `ComposeMeaning.ContentsMeaning` | scripts/service_version_audit.py:234 | the lines scanned hold no break and, with one break behind each but perhaps the last, are the text |
| `ComposeMeaning.EntriesMeaning` | scripts/service_version_audit.py:233-271 | a line is an entry of a service with a reference exactly when it shows that image and the service's heading stands above it, under a services line, with neither heading nor services line between |
| `ComposeMeaning.EntriesOrdered` | scripts/service_version_audit.py:238-270 | entries come in the order of their lines, one for a line |
| `ComposeScan.RewritesItsOwn` | scripts/service_version_audit.py:309-314 | a line is rewritten exactly for the reference it shows |
| `ComposeScan.NewRefSplits` | scripts/service_version_audit.py:98-108 | a new reference splits back into the old name and exactly the new tag |
| `ComposeRewrite.RewriteFound` | scripts/service_version_audit.py:309-317 | a rewritten line is found again under the same service with the new reference |
| `ComposeRewrite.ComposeFaithful` | scripts/service_version_audit.py:291-323 | every found line keeps the scan's state and gives its goal after rewriting |
| `ComposeRewrite.RescanFindsGoals` | scripts/service_version_audit.py:233-323 | for every file, scanning the rewritten file gives the same entries in order, each with its target in place |
| `ComposeRewrite.PiecesElsewhere` | scripts/service_version_audit.py:301-317 | every line without an entry is unchanged |
| `ComposeRewrite.LineNumberKept` | scripts/service_version_audit.py:302-317 | an entry keeps its line number exactly when no earlier one is moved on a line that becomes two |
| `ComposeRewrite.ApplyUpdates` | scripts/service_version_audit.py:291-323 | collecting and overwriting gives the rewritten text, counts the changes, and leaves the file alone without any |
| `ComposeExample.OddBreakShiftsLines` | scripts/service_version_audit.py:316 | a file on which moving one image shifts the next |
| `Registry.SpelledOut` | scripts/service_version_audit.py:132-154 | short and long spellings of an official image resolve to the same Docker Hub repository |
| `Registry.SpelledOutHub` | scripts/service_version_audit.py:132-154 | the same for any other Docker Hub image |
| `Registry.OtherRegistry` | scripts/service_version_audit.py:132-154 | an image of any other registry has no source |
| `Registry.MirroredRelease` | scripts/service_version_audit.py:35-36 | but for the one whose releases are on GitHub |
| `Registry.FetchLatestFromDockerhub` | scripts/service_version_audit.py:170-193 | the paging loop gives the best of all names up to the last page or the sixth, and nothing when a page fails |
| `Registry.FetchLatestFromGithub` | scripts/service_version_audit.py:196-222 | the same over published releases, up to a short page or the fourth |
| `Registry.HubTagsMeaning` | scripts/service_version_audit.py:170-193 | listed are exactly the names on pages 1 to 6 up to the first page without a successor, and nothing if one of these fails |
| `Registry.GithubTagsMeaning` | scripts/service_version_audit.py:196-222 | listed are exactly the releases that are neither drafts nor prereleases on pages 1 to 4 up to the first short one, and nothing if one of these fails |
| `Registry.FetchLatestStable` | scripts/service_version_audit.py:225-230 | the lookup by source, with nothing for sources that are not supported |
| `Registry.NoRepository` | scripts/service_version_audit.py:225-230 | without a repository there is nothing to look up |
| `Registry.LatestMeaning` | scripts/service_version_audit.py:170-230 | a lookup gives a listed stable tag with its own version, none newer is listed, and nothing only when there is none |
| `ComposeAudit.Audit` | scripts/service_version_audit.py:355-376 | the audit loop decides every entry, fetching each source once |
| `ComposeAudit.ClassifyMeaning` | scripts/service_version_audit.py:111-119 | latest floats however it is written, three or four numbers are pinned, anything else is a channel |
| `ComposeAudit.CompareMeaning` | scripts/service_version_audit.py:274-288 | a tag moves exactly when it is pinned, the release is newer, and the major agrees or may change |
| `ComposeAudit.PassEntry` | scripts/service_version_audit.py:274-323 | what a pass does to every entry: same service and image, the target or no change, nothing more to do, no version down, no major changed without leave |
| `ComposeAudit.SecondPassIdle` | scripts/service_version_audit.py:343-376 | with the registries unchanged a second pass proposes nothing and leaves the file identical |
| `ComposeAudit.PassReachesNewest` | scripts/service_version_audit.py:274-288 | with major moves allowed, no pinned entry stays behind a stable tag its source lists |
| `ComposeAudit.LatestIsHonest` | scripts/service_version_audit.py:170-230 | lookups meet what the audit asks of them, whatever the registries answer |
| `ComposeAudit.LoadAll` | scripts/service_version_audit.py:348-353 | the scanning loop over all files gives their entries, file after file |
| `ComposeAudit.ApplyAll` | scripts/service_version_audit.py:291-323 | each file gets its own pass from its own part of the verdicts, and with no change every file is as it was |
| `ComposeAudit.AuditAndApply` | scripts/service_version_audit.py:343-384 | scan, lookup, verdicts and overwriting of any number of files: each file gets one pass, and each source is fetched once for all of them |
| `ComposeAudit.RunsAdvance` | scripts/service_version_audit.py:274-323 | over any number of passes with any answers: same entries in order, no pinned version goes down, no major changes without leave |
| `Framing.AvailableMore` | scripts/memorybank_http_proxy.py:50-70 | once a message is complete, later bytes do not change it |
| `Framing.PrefixWaits` | scripts/memorybank_http_proxy.py:50-70 | no proper prefix of a message is taken for one |
| `Framing.EndOfStream` | scripts/memorybank_http_proxy.py:50-63 | a stream ends before a message exactly when none of its lines is blank |
| `Framing.ReadCutOff` | scripts/memorybank_http_proxy.py:64-70 | a frame cut off inside its body is read as what there is of it |
| `Framing.UnreadableLength` | scripts/memorybank_http_proxy.py:64-70 | a length that is no number counts as none |
| `Framing.ParseIntMeaning` | scripts/memorybank_http_proxy.py:65-68 | a length is a number exactly if it is digits, with single underscores between them, behind a sign or none |
| `Framing.ParseSigned` | scripts/memorybank_http_proxy.py:65-68 | and then it is read as its signed value |
| `Framing.ReadWire` | scripts/memorybank_http_proxy.py:50-70 | a frame is read as its body however the length line is spelled, whatever headers and noise surround it and whatever follows |
| `Framing.DecodeWires` | scripts/memorybank_http_proxy.py:50-70 | any list of such frames decodes to exactly its bodies with nothing left over |
| `Framing.FramesRoundTrip` | scripts/memorybank_http_proxy.py:50-78 | what call writes, frame after frame, decodes to exactly the bodies written |
| `Framing.FrameBytes` | scripts/memorybank_http_proxy.py:76-77 | a frame byte for byte |
| `Framing.BlankNoiseEndsMessage` | scripts/memorybank_http_proxy.py:57-63 | a blank noise line ends the headers: the message read is empty |
| `Bridge.Child.ReadMessage` | scripts/memorybank_http_proxy.py:50-70 | the reading loop takes exactly one message off the pipe, or everything at the end of the stream |
| `Bridge.Child.Call` | scripts/memorybank_http_proxy.py:72-86 | a call writes one frame and gives the next message decoded, -32603 for an empty one or none, -32700 for one that is not JSON |
| `Bridge.OneFrameOneReply` | scripts/memorybank_http_proxy.py:72-86 | on a quiet pipe a child that answers with one frame gives exactly its reply or the right error, and the pipe is quiet again |
| `Bridge.NoBlankLineNoResponse` | scripts/memorybank_http_proxy.py:56-57 | a child that ends its output before a blank line, as one that has exited does, gives -32603 |
| `BridgeProtocol.StepKeeps` | scripts/memorybank_http_proxy.py:72-86 | every step of callers and child keeps the protocol's invariant |
| `BridgeProtocol.RunSafe` | scripts/memorybank_http_proxy.py:72-86 | in every run the pipes are empty whenever the lock is free, and answers pair up with requests in order |
| `BridgeProtocol.CallersGetTheirOwnReplies` | scripts/memorybank_http_proxy.py:72-86 | in every interleaving each completed call got the reply to the request that this very caller wrote |
| `BridgeProtocol.AnsweredCallsFinish` | scripts/memorybank_http_proxy.py:72-86 | a call whose reply has arrived can always finish |
| `BridgeProtocol.RequestIsWritten` | scripts/memorybank_http_proxy.py:72-78 | once the lock is free a call writes its request without waiting |
| `BridgeProtocol.RequestIsAnswered` | scripts/memorybank_http_proxy.py:72-80 | the child can answer it with any frame |
| `BridgeProtocol.AnswerIsFlushed` | scripts/memorybank_http_proxy.py:50-70 | which may reach the pipe in any two pieces |
| `BridgeProtocol.AnswerIsRead` | scripts/memorybank_http_proxy.py:79-86 | and then the call ends with that reply and an empty pipe |
| `FanoutQueue.MergeIntoLatest` | services/orchestrator/app.py:7773-7787 | the row a write is merged into is the latest waiting one for its file and sink |
| `FanoutSteps.EnqueueMerges` | services/orchestrator/app.py:7773-7812 | a write that may be merged goes into the latest waiting row of its sink and file, due at once and otherwise as it was |
| `FanoutSteps.EnqueueKnown` | services/orchestrator/app.py:7813-7843 | an event that has its row is left alone |
| `FanoutSteps.EnqueueForced` | services/orchestrator/app.py:7819-7840 | unless forced: the row starts over with the new payload |
| `FanoutSteps.EnqueueNew` | services/orchestrator/app.py:7844-7874 | an event without a row gets one, due at once |
| `FanoutSteps.TakeMeaning` | services/orchestrator/app.py:7906-7941 | a job is claimed exactly when it is there, waiting and due, with one attempt more |
| `FanoutSteps.SuccessMeaning` | services/orchestrator/app.py:7990-8006 | a delivered job is marked done, and nothing else changes |
| `FanoutSteps.ErrorMeaning` | services/orchestrator/app.py:8054-8090 | a failed job ends, a retried one waits for its delay or ends with the last attempt allowed |
| `FanoutSteps.RecoverMeaning` | services/orchestrator/app.py:7957-7985 | recovery puts back exactly the running rows whose last attempt is old enough or unknown |
| `FanoutSteps.GiveUpMeaning` | services/orchestrator/app.py:8032-8050 | giving up on a sink fails exactly its unfinished rows |
| `FanoutSteps.CollectMeaning` | services/orchestrator/app.py:8332-8390 | the collector deletes exactly the done, the failed and the stale rows past the age for each |
| `FanoutSteps.PruneMeaning` | services/orchestrator/app.py:8178-8256 | pruning deletes only chosen unfinished rows of its sink |
| `FanoutQueue.RunSound` | services/orchestrator/app.py:7738-8090 | in every run at most one row present for an event and sink, rows keep event and sink, payloads only get newer, and a deleted row stays as it was |
| `FanoutAttempts.StepBounded` | services/orchestrator/app.py:7892-8090 | every step keeps attempts made and still possible within the limit and the extra ones |
| `FanoutAttempts.AttemptsBound` | services/orchestrator/app.py:7892-8090 | in every run no job is claimed, since it was last put back by force, more often than the limit plus recoveries, errors dealt with twice and claims live at that requeue |
| `FanoutAttempts.CalmAttempts` | services/orchestrator/app.py:8054-8066 | without recoveries, forced requeues and errors dealt with twice the limit itself holds |
| `FanoutAttempts.AttemptsReached` | services/orchestrator/app.py:7957-7985 | for every limit, all delays between attempts, every recovery age and number of restarts a run that makes exactly limit plus restarts attempts, with no worker alive at a recovery |
| `FanoutAttempts.HandledTwiceReached` | services/orchestrator/app.py:2494-2502 | where jobs are pushed one by one, for all delays a run with neither recovery nor requeue that makes one attempt more than the limit |
| `FanoutDelivery.NothingUnaccounted` | services/orchestrator/app.py:7767-7864 | in every run each accepted event is carried, in its own version or a newer one, by a row of its sink and file, present or deleted since |
| `FanoutDelivery.StepFaithful` | services/orchestrator/app.py:7767-8090 | a step keeps done jobs delivered and workers up to date exactly when it neither writes over a held row nor reports an undelivered job as done |
| `FanoutDelivery.DoneMeansDelivered` | services/orchestrator/app.py:7892-8090 | so in every run without such a step a job reported as done was delivered in the version it carries |
| `FanoutDelivery.OverwriteLosesUpdate` | services/orchestrator/app.py:7990-8006 | in every reachable state a merge or forced requeue over a held row can end as done with a payload no one delivered |
| `FanoutDelivery.StepSettled` | services/orchestrator/app.py:7767-8090 | a step keeps every pushed job done, or there with a worker about to report it, exactly when it strands none: no error or leaving of the last such worker, no restart or deletion before it is done, no push of a deleted row |
| `FanoutDelivery.SettledRun` | services/orchestrator/app.py:7767-8090 | so in every run without such a step every pushed job is done or about to be reported |
| `FanoutDelivery.AllDoneExactly` | services/orchestrator/app.py:2291-2335 | in runs that break and strand nothing, once every job left is done, an accepted event has reached its sink exactly when a row carrying it, left or deleted, is reported as done |
| `FanoutDelivery.StrandedIsDeletedUnreported` | services/orchestrator/app.py:8356-8364 | in every state a pushed job whose last worker fails is deleted in time as failed |
| `FanoutDelivery.ReachedUnreported` | services/orchestrator/app.py:8356-8364 | for every configuration and age a run after which no job is left and the event reached its sink although no row says so |
| `FanoutDelivery.AllDoneAllDelivered` | services/orchestrator/app.py:2291-2335 | once every job left is done, an accepted event has reached its sink, in its version or a newer one, if every row deleted for it was done |
| `FanoutLosses.StepLoses` | services/orchestrator/app.py:7767-8390 | whatever the step, it leaves an event lost exactly when it stores nothing for it and every row carrying it is deleted by now, unpushed, and let go of by all its workers |
| `FanoutLosses.LostForGood` | services/orchestrator/app.py:8332-8390 | a lost event stays lost in every run that stores nothing for its sink and file |
| `FanoutLosses.FailuresAreForgotten` | services/orchestrator/app.py:8356-8364 | from any state, events whose jobs failed for good are lost once the age for failed jobs is up |
| `FanoutLosses.CollectedFailureForgets` | services/orchestrator/app.py:8356-8364 | for every configuration and age a run after which no job is left and the accepted event never reached its sink |
| `FanoutHolders.StepExclusive` | services/orchestrator/app.py:7767-8090 | a step keeps every job with one worker at most exactly when it puts no row back that a worker holds |
| `FanoutHolders.ExclusiveRun` | services/orchestrator/app.py:7892-8090 | so in every run without such a step no job has two workers |
| `FanoutHolders.PutBackIsShared` | services/orchestrator/app.py:7819-7843 | a held row that was put back can be claimed by a second worker once it is due |
| `FanoutHolders.OneProcessExclusive` | services/orchestrator/app.py:5046 | if rows are recovered only between a restart and the first claim, nothing is requeued by force and no error is dealt with twice, no job has two workers in any run |
| `FanoutHolders.OneProcessOneWorker` | services/orchestrator/app.py:5046 | with no sink pushed job by job this follows from the order of the steps alone, from an empty outbox on |
| `FanoutHolders.OrphansStay` | services/orchestrator/app.py:5046 | a job whose worker died stays as it is until a step recovers, requeues, gives up on or deletes it |
| `FanoutHolders.RestartRecovers` | services/orchestrator/app.py:7957-7985 | after a restart and recovery a running job that is old enough becomes the job of one worker at the next claim, with one attempt more; any other stays orphaned through whatever does not touch it |
| `FanoutOutbox.NextDue` | services/orchestrator/app.py:7911-7924 | the first due row not yet chosen, or none when all are |
| `FanoutOutbox.SelectDue` | services/orchestrator/app.py:7911-7925 | the due rows in order of time and age, up to the limit, and none left out that comes before one chosen |
| `FanoutOutbox.DueMeaning` | services/orchestrator/app.py:7911-7921 | due are exactly the waiting rows of the wanted sinks whose time has come |
| `FanoutOutbox.Outbox.Add` | services/orchestrator/app.py:7767-7874 | storing an event for several sinks, with counts that add up to the sinks, the new rows and the accepted versions |
| `FanoutOutbox.Outbox.ClaimBatch` | services/orchestrator/app.py:7892-7943 | claims the first due jobs, between 1 and 256: each running, one attempt more, one new claim with its payload |
| `FanoutOutbox.ClaimedIsTaken` | services/orchestrator/app.py:7926-7941 | a claimed batch changes exactly its own rows |
| `IsoTime.IsoOrder` | scripts/fanout_outbox_gc.py:16-22 | text order is time order except in one second with one zero fraction, where it is reversed |
| `IsoTime.IsoAgrees` | scripts/fanout_outbox_gc.py:16-22 | the two orders agree exactly outside that case |
| `IsoTime.IsoInjective` | scripts/fanout_outbox_gc.py:16-22 | different instants have different texts |
| `IsoTime.IsoShape` | scripts/fanout_outbox_gc.py:16-22 | an instant is written in fixed-width fields with their separators, a fraction if there is one, and a Z |
| `IsoTime.TextLessMeaning` | scripts/fanout_outbox_gc.py:149-184 | a text is less exactly when it is a proper prefix or smaller where the two first differ |
| `OutboxGc.Outbox.Run` | scripts/fanout_outbox_gc.py:141-215 | the run, real or dry, with its counts, and what is left when a statement or the commit fails |
| `OutboxGc.LaterCounts` | scripts/fanout_outbox_gc.py:149-192 | dry-run counts are the counts of the deletes run one after the other |
| `OutboxGc.CollectedOnce` | scripts/fanout_outbox_gc.py:149-192 | three deletes decide every row on its own, once, and keep the others in order |
| `OutboxGc.CollectedMeaning` | scripts/fanout_outbox_gc.py:146-184 | a row is kept exactly when it is neither a succeeded nor a failed row older than the cutoff for its status, nor an unfinished row of a stale target older than the third, by the first time it has |
| `OutboxGc.CountsMeaning` | scripts/fanout_outbox_gc.py:149-192 | the three counts are the numbers of these rows |
| `OutboxGc.Conservation` | scripts/fanout_outbox_gc.py:198-215 | rows before are rows after and rows deleted, and the three counts add up |
| `OutboxGc.SecondRunIdle` | scripts/fanout_outbox_gc.py:149-192 | a second run at the same cutoffs deletes nothing |
| `OutboxGc.UndatedRowsStay` | scripts/fanout_outbox_gc.py:149-184 | a row is never deleted if the time is missing that the statement for its status looks at |
| `OutboxGc.TextDecisionExact` | scripts/fanout_outbox_gc.py:149-184 | deciding by text differs from deciding by the clock exactly in the cutoff's second with one zero fraction |
| `OutboxGc.TextDecisionReversed` | scripts/fanout_outbox_gc.py:149-184 | on those rows the decision is the wrong way round |
| `Gate.GateStep` | memmcp-dashboard/lib/usage/budgets.ts:28-58 | a check-then-record gate keeps recorded and held amounts within the limit and one amount less than its room |
| `UsageBudget.MonthTotalMeaning` | memmcp-dashboard/lib/usage/budgets.ts:15-26 | what is used is the sum over exactly the rows of the workspace from the month on |
| `UsageBudget.CheckMeaning` | memmcp-dashboard/lib/usage/budgets.ts:28-58 | a request is admitted exactly when there is no limit, it is zero, or that sum and what is asked for stay within it |
| `UsageBudget.RecordMeaning` | memmcp-dashboard/lib/usage/events.ts:11-30 | a recorded request adds its own amount to its own workspace and to no other |
| `UsageBudget.LeaveMeaning` | memmcp-dashboard/app/api/memory/write/route.ts:96-125 | a request that leaves takes with it what it held |
| `UsageBudget.BudgetMeaning` | memmcp-dashboard/lib/usage/budgets.ts:28-41 | a request finds the budget set last for its workspace |
| `UsageBudget.DeleteMeaning` | memmcp-dashboard/app/api/workspace/delete/route.ts:27-33 | a workspace marked for deletion lets no request in |
| `UsageBudget.StepMoves` | memmcp-dashboard/lib/usage/budgets.ts:28-58 | every step of the write and usage routes after which the rows since a later month come to no more than those since the month in use is a step of the gate |
| `UsageBudget.BudgetBound` | memmcp-dashboard/app/api/memory/write/route.ts:96-125 | in every interleaving, month changes and negative amounts included, the month's tokens stay within the limit plus one amount less than overlapping requests, as long as the rows since a later month never come to more than those since an earlier one in use |
| `UsageBudget.SerialBound` | memmcp-dashboard/app/api/usage/events/route.ts:65-103 | one request at a time: the limit itself |
| `UsageBudget.ChargedIsPaid` | memmcp-dashboard/app/api/usage/events/route.ts:54 | without negative amounts every run meets that condition |
| `UsageBudget.CreditOvershoots` | memmcp-dashboard/app/api/usage/events/route.ts:54 | in every state in which a request's month comes to less than the present or a later one, it can take that later month past the limit on its own |
| `UsageBudget.BoundReached` | memmcp-dashboard/lib/usage/budgets.ts:28-58 | for every limit, amount and number of requests a run that ends exactly on the bound |
| `UsageBudget.MemoryWriteBound` | memmcp-dashboard/app/api/memory/write/route.ts:60-125 | for memory writes the amount is a quarter of the plan's write size, rounded up |
| `UsageBudget.PlanFallback` | memmcp-dashboard/lib/billing/entitlements.ts:14-39 | a known plan has its own limits, anything else the default plan's |
| `UsageBudget.PlanTable` | memmcp-dashboard/lib/billing/entitlements.ts:14-39 | the limits of the three plans |
| `UsageBudget.WriteCharge` | memmcp-dashboard/lib/usage/events.ts:3-9 | blanks around a write are free, and every four characters started cost one token |
| `UsageBudget.NoUsageAfterDeletion` | memmcp-dashboard/app/api/workspace/delete/route.ts:27-41 | after deletion no request whose workspace check comes later ever adds usage |
| `UsageBudget.DeletionLiftsTheLimit` | memmcp-dashboard/app/api/workspace/delete/route.ts:38-41 | in every state, a request that entered an active workspace before its deletion is then admitted and recorded whatever it asks for |
| `ApiKeys.KeysBound` | memmcp-dashboard/app/api/workspace/api-keys/route.ts:57-83 | in every interleaving unrevoked keys stay within the plan's limit plus one less than overlapping creates |
| `ApiKeys.SerialKeysBound` | memmcp-dashboard/app/api/workspace/api-keys/route.ts:57-83 | one create at a time: the limit itself |
| `ApiKeys.UnrevokedMeaning` | memmcp-dashboard/app/api/workspace/api-keys/route.ts:59-62 | exactly the unrevoked keys of the workspace count |
| `ApiKeys.CountMeaning` | memmcp-dashboard/app/api/workspace/api-keys/route.ts:57-71 | a create passes exactly when there is no limit or fewer keys than it allows are live |
| `ApiKeys.CreateMeaning` | memmcp-dashboard/app/api/workspace/api-keys/route.ts:72-83 | every create that passed adds one live key to its own workspace, unless it fails |
| `ApiKeys.KeysReached` | memmcp-dashboard/app/api/workspace/api-keys/route.ts:57-83 | from any state one short of the limit the bound is reached |
| `ApiKeys.RevokedForGood` | memmcp-dashboard/app/api/workspace/api-keys/[id]/route.ts:17-27 | no step brings a revoked key back or removes its row |
| `ApiKeys.RevokeMeaning` | memmcp-dashboard/app/api/workspace/api-keys/[id]/route.ts:17-27 | revoking a key of the workspace revokes it then, touches no other, and lowers the count exactly if it was live; any other key is left alone |
| `ApiKeys.RevokeAllMeaning` | memmcp-dashboard/app/api/workspace/delete/route.ts:34-37 | deleting a workspace revokes its live keys then; keys revoked before keep their time |
| `ApiKeys.NoneLeft` | memmcp-dashboard/app/api/workspace/delete/route.ts:34-37 | deleting a workspace revokes all its keys and no other |
| `RateLimit.WindowBound` | memmcp-dashboard/lib/rateLimit.ts:12-32 | in every interleaving every closed interval of the window's length holds at most the maximum plus one less than overlapping requests |
| `RateLimit.SerialWindowBound` | memmcp-dashboard/app/api/auth/request-reset/route.ts:13-18 | one request at a time: at most the maximum in any window |
| `RateLimit.WindowReached` | memmcp-dashboard/lib/rateLimit.ts:12-32 | from any state one attempt short of the maximum, overlapping requests end exactly on the bound |
| `RateLimit.RecentMeaning` | memmcp-dashboard/lib/rateLimit.ts:12-22 | exactly the attempts of the email and action from that time on count |
| `RateLimit.CheckMeaning` | memmcp-dashboard/lib/rateLimit.ts:12-22 | a request is admitted exactly when fewer attempts than the maximum lie in the window before the time it read |
| `RateLimit.RecordMeaning` | memmcp-dashboard/lib/rateLimit.ts:24-32 | an admitted request leaves one attempt, unless it fails |
| `RateLimit.LimitedUntilDeadline` | memmcp-dashboard/lib/rateLimit.ts:12-22 | an email is limited exactly until its oldest counted attempt leaves the window |
| `RateLimit.LockedOut` | memmcp-dashboard/app/api/auth/reset/route.ts:15-23 | until then nothing about the email changes, however many requests arrive |
| `RateLimit.Readmitted` | memmcp-dashboard/lib/rateLimit.ts:12-22 | after the deadline it is admitted again |
| `Archiver.Partition` | scripts/archive_ndjson_by_time.py:77-107 | the reading loop keeps and buckets exactly the right lines, dates in order of first use |
| `Archiver.WhereLinesGo` | scripts/archive_ndjson_by_time.py:77-107 | a line with a time before the cutoff goes to the file of its date, every other line stays |
| `Archiver.DaysOrdered` | scripts/archive_ndjson_by_time.py:101-110 | dates are written in the order in which they are first met |
| `Archiver.Files.ArchiveFile` | scripts/archive_ndjson_by_time.py:69-123 | a run, complete or stopped after any number of appends, with its counts |
| `Archiver.Files.AppendBuckets` | scripts/archive_ndjson_by_time.py:109-118 | the appending loops write bucket after bucket, or a prefix of that when stopped |
| `Archiver.HotContent` | scripts/archive_ndjson_by_time.py:77-121 | the new hot file reads back as the lines that stay, in order |
| `Archiver.ColdFileReads` | scripts/archive_ndjson_by_time.py:101-118 | what a date's cold file gains reads back as the hot file's old lines of that date, in order |
| `Archiver.Conservation` | scripts/archive_ndjson_by_time.py:77-123 | no line lost, none invented, order kept in hot and in every bucket |
| `Archiver.TwoCutoffs` | scripts/archive_ndjson_by_time.py:77-123 | one cutoff and then a later one is the later one alone: same hot file, same lines per date, in the same order if the file is ordered by time |
| `Archiver.RepeatIsIdle` | scripts/archive_ndjson_by_time.py:77-123 | a second run at the same cutoff changes nothing |
| `Archiver.StoppedLosesNothing` | scripts/archive_ndjson_by_time.py:61-66 | when a run stops, hot is untouched and cold has only gained copies |
| `Archiver.CrashSafe` | scripts/archive_ndjson_by_time.py:84-121 | after any number of stopped or completed attempts a completed run ends as one uninterrupted run, with extra cold copies only where an attempt stopped |
| `EnvRecords.RecordsOfPrint` | scripts/first_run.sh:97-111 | lines written out read back as the same lines |
| `EnvRecords.GetAfterPut` | scripts/first_run.sh:91-170 | get after set gives the value exactly when no bare key below the assignments hides it, and the key itself otherwise |
| `EnvRecords.GetOther` | scripts/first_run.sh:91-170 | every other key keeps its value |
| `EnvRecords.OtherLinesKept` | scripts/first_run.sh:97-111 | every line that does not assign the key stays, in order |
| `EnvRecords.PutIdempotent` | scripts/first_run.sh:91-115 | setting twice is setting once |
| `FirstRun.CleanParts` | scripts/first_run.sh:124-142 | the cleaning loop gives the chosen names |
| `FirstRun.ProfilesMeaning` | scripts/first_run.sh:117-149 | the local model profile is on exactly in local mode, and all other names stay in order |
| `FirstRun.ProfilesIdempotent` | scripts/first_run.sh:117-149 | cleaning what was written changes nothing |
| `FirstRun.ProfilesSaid` | scripts/first_run.sh:117-149 | the profiles written are those of the mode, chosen from the ones the file had |
| `FirstRun.DefaultProfiles` | scripts/first_run.sh:117-122 | without any setting there are four |
| `FirstRun.BlanksAlike` | scripts/first_run.sh:124-142 | spaces, tabs and line feeds separate words alike |
| `FirstRun.RunSettles` | scripts/first_run.sh:183-232 | after a run every line assigning a setting gives it the run's value |
| `FirstRun.RunValues` | scripts/first_run.sh:183-232 | each setting of the chosen posture is what a reader of the file sees |
| `FirstRun.SecureByDefault` | scripts/first_run.sh:183-204 | without the insecure option the file ends up with production, strict, loopback and nothing public, whatever it said before |
| `FirstRun.InsecureIsOpen` | scripts/first_run.sh:188-197 | with the insecure option the same settings end up open |
| `FirstRun.SecretsMode` | scripts/first_run.sh:185-186 | secrets are redacted unless another way was asked for |
| `FirstRun.LettaMode` | scripts/first_run.sh:214-230 | a key for Letta is required exactly in external mode |
| `FirstRun.LettaConnection` | scripts/first_run.sh:215-220 | and there the given key and address are set |
| `FirstRun.ApiKeyKept` | scripts/first_run.sh:206-211 | an existing key is kept, and one is generated exactly when secure mode finds none |
| `FirstRun.OrchestratorKey` | scripts/first_run.sh:206-211 | the same of the orchestrator's own key: one is generated exactly in secure mode when none can be read |
| `FirstRun.OtherKeysKept` | scripts/first_run.sh:183-232 | keys the run does not set keep their values |
| `FirstRun.RunIdempotent` | scripts/first_run.sh:117-232 | a second run with the same options changes no line, bare keys or not, whatever key it would generate |
| `FirstRun.RunTextIdempotent` | scripts/first_run.sh:91-232 | nor any character of the file |
| `FirstRun.PlanWorkable` | scripts/first_run.sh:183-230 | the script's own keys are distinct and settable |
| `FirstRun.EnvFile.SetKey` | scripts/first_run.sh:91-115 | the editor's loop writes the lines with the key set, and creates a missing file |
| `FirstRun.MissingFile` | scripts/first_run.sh:91-115 | a file that was not there holds just the assignment afterwards |
| `FirstRun.EnvFile.GetKey` | scripts/first_run.sh:164-170 | the reading loop keeps the last match |
| `FirstRun.EnvFile.ConfigureProfiles` | scripts/first_run.sh:117-149 | reads the current profiles and writes the chosen ones |
| `FirstRun.EnvFile.Run` | scripts/first_run.sh:183-232 | the whole configuration |
| `Backfill.HitsIsLongestRun` | scripts/backfill_existing_data.sh:68-72 | the counter is the length of the longest quiet run that ends now |
| `Backfill.WaitForQuiet` | scripts/backfill_existing_data.sh:48-80 | success exactly at the first poll that ends a long enough quiet run with every poll in time and answered; a bound on polls; what a time-out and a failure mean |
| `Backfill.SucceedsMeaning` | scripts/backfill_existing_data.sh:48-80 | that success spelled out on the clock, the answers and the three counts |
| `Backfill.PollsBounded` | scripts/backfill_existing_data.sh:57-63 | no more polls than the wait divided by the pause, and one |
| `Backfill.Run` | scripts/backfill_existing_data.sh:82-143 | a phase starts exactly when it is on, its own wait succeeds and everything before it went through |
| `Slug.CandidatesDiffer` | memmcp-dashboard/app/api/auth/register/route.ts:43-45 | no two candidate names are equal |
| `Slug.FreeSlug` | memmcp-dashboard/app/api/auth/register/route.ts:40-46 | a free name, the base or the smallest free suffix, after at most one lookup more than there are names |
| `Reconcile.Intents.Run` | memmcp-dashboard/scripts/reconcile_stripe.ts:17-41 | the reconciling loop, applied or not: rows, count, and how far it gets when a lookup fails |
| `Reconcile.IntentFixpoint` | memmcp-dashboard/scripts/reconcile_stripe.ts:17-41 | the next run gets exactly as far, finds nothing and changes nothing |
| `Reconcile.StripeFixpoint` | memmcp-dashboard/scripts/reconcile_stripe.ts:7-41 | this holds for the Stripe mapping |
| `Reconcile.PayPalFixpoint` | memmcp-dashboard/scripts/reconcile_paypal.ts:41-72 | for the PayPal mapping, which lower-cases and renames |
| `Reconcile.CoinbaseFixpoint` | memmcp-dashboard/scripts/reconcile_coinbase.ts:17-53 | and for the last status of a Coinbase timeline |
| `Reconcile.StripeStored` | memmcp-dashboard/scripts/reconcile_stripe.ts:17-41 | what a Stripe session is stored as, and that a missing one ends the run |
| `Reconcile.PayPalStored` | memmcp-dashboard/scripts/reconcile_paypal.ts:41-72 | what a PayPal order is stored as |
| `Reconcile.CoinbaseStored` | memmcp-dashboard/scripts/reconcile_coinbase.ts:17-53 | what a Coinbase charge is stored as |
| `Reconcile.UnreferencedStays` | memmcp-dashboard/scripts/reconcile_stripe.ts:17-21 | an intent without a reference is not looked up |
| `Reconcile.AsciiLowers` | memmcp-dashboard/scripts/reconcile_paypal.ts:55 | lower-casing A to Z meets what the mappings ask of it |
| `Reconcile.Subscriptions.Run` | memmcp-dashboard/scripts/reconcile_stripe.ts:47-92 | the subscription loop, applied or only counted |
| `Reconcile.ListedIsStored` | memmcp-dashboard/scripts/reconcile_stripe.ts:58-91 | every listed subscription has its listed state afterwards |
| `Reconcile.UsersKept` | memmcp-dashboard/scripts/reconcile_stripe.ts:58-91 | rows that were there keep their users |
| `Reconcile.UnlistedKept` | memmcp-dashboard/scripts/reconcile_stripe.ts:58-91 | rows not listed stay as they were |
| `Reconcile.FirstListedUser` | memmcp-dashboard/scripts/reconcile_stripe.ts:58-91 | a new row belongs to the user it is first listed for |
| `Reconcile.SubscriptionFixpoint` | memmcp-dashboard/scripts/reconcile_stripe.ts:47-92 | with the provider unchanged the run after an applied run reports and changes nothing |
| `Reconcile.CountedAgainstApplied` | memmcp-dashboard/scripts/reconcile_stripe.ts:58-91 | counting reports at least what applying changes, and exactly that when and only when nothing needing an update is listed twice |

## Left out

- Versions: tags and numbers use the digits 0 to 9 only; Python's patterns also match other decimal digits, and its `int` refuses texts of more than 4300 digits.
- ComposeAudit.AuditAndApply: the files are those that exist, each given once; the report, the summary table and the notes on why an entry is not moved are not modelled.
- Registry.FetchLatestStable: a failed request, a page that is not JSON and a row without a name are one failure or an empty name; URLs and timeouts are not modelled.
- Bridge.Child.Call: pipes are unbuffered, so reads and writes are complete; which texts are JSON is a parameter; starting, restarting and losing the child and its error stream are not modelled.
- Framing.ReadMessage: lengths use the digits 0 to 9, a sign and single underscores, as Python's `int` reads ASCII bytes.
- BridgeProtocol.CallersGetTheirOwnReplies: the child is assumed to answer each request with one framed reply, in order; requests are JSON texts and so never empty.
- FanoutQueue.Apply: the MongoDB backend, fallback between backends, error texts and payload fields other than a version are not modelled; which rows pruning takes for low-value is any set of them; times are compared as instants, although the code compares their texts (what that changes is `OutboxGc.TextDecisionExact`).
- OutboxGc.Outbox.Run: VACUUM, finding the database file and a missing table are not modelled.
- UsageBudget.BudgetBound: cost budgets, which follow the same pattern over a second sum, and the switch that turns enforcement off are not modelled; amounts are whole tokens.
- UsageBudget: authentication, scopes, subscriptions, the project limit and the write itself appear as requests that may leave at any time.
- RateLimit: settings that do not parse as numbers, which switch the limiter off, are not modelled.
- Archiver.Files.ArchiveFile: cold files are the appended lines; compression, directories and the temporary file are not modelled, and a run stops between lines.
- EnvRecords.Put: values with a backslash, which awk would decode, are taken as they are; keys are plain names, so awk's pattern matching is comparison.
- FirstRun.CleanParts: quotes and backslashes in profile names, which xargs would interpret, are not modelled.
- Backfill.WaitForQuiet: the script's clock is assumed not to go back, and each sleep to last at least as long as asked.
- Slug.FreeSlug: building the base name from a display name or address is not modelled.
- Reconcile: tokens, requests and time windows of the providers; what a provider answers is fixed while runs are compared.
- Retrieval, rollups, the orchestrator's agent job queue and its other sinks, `scripts/task_agent_worker.py`, the dashboard's pages, and the network clients and proxies would add long models of foreign services.
