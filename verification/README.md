# A verified model of the dashboard's refresh engine

The dashboard keeps one snapshot of every pull request, issue and repository of a few forges. Full refreshes on a
schedule, scoped refreshes for webhooks, batched CI polls and clicks all write it, side by side, and after each write
passes over the board update branches, merge and ask bots to rebase. This project models the protocols that decide
which trigger runs, whose data wins and what must never be repeated, and proves what every run of them keeps.

A component that changes its fields in steps is a class here, with the source's fields and loops. Each method is
proved against a function of the old state, and the theorems are about those functions: a component's steps are put
together in a state machine in which any step may come at any time, and the lemmas speak of every state it can reach.
Where a step is not possible it changes nothing. Fields and counters that serve only a statement are called history in
the comment that declares them.

| file | what it holds |
|---|---|
| `Coalesce.dfy`, `Writes.dfy`, `Debounce.dfy`, `LeftArmed.dfy` | single-flight with a trailing run; one write pass at a time; burst windows; what can still be armed after one |
| `Fetch.dfy`, `FetchPass.dfy` | one pass over the sources; its deadline and the clicks that shorten it |
| `Rows.dfy`, `Merge.dfy`, `Refresh.dfy` | the snapshot; merging repositories; assembling and landing a full refresh |
| `Polls.dfy`, `Ordered.dfy` | what a merge leaves of one repository, said of its rows; the order of the board |
| `RefreshRuns.dfy`, `Taken.dfy`, `Outages.dfy` | every interleaving of these; what a refresh carries over and what happens to it meanwhile |
| `BoxRuns.dfy`, `TickRuns.dfy`, `Undone.dfy` | rebase boxes and settled pull requests; what can undo a tick |
| `Aggregator.dfy` | the aggregator's own fields and loops |
| `RunGroups.dfy`, `CheckStream.dfy`, `Relisted.dfy`, `CheckWatch.dfy` | grouping jobs; replicating job lists to a page; when a list is asked for again; the watch's own fields and loops |
| `BotRequests.dfy`, `Dependabot.dfy`, `AutoMerge.dfy`, `Updates.dfy` | automation that must not loop |
| `Registration.dfy` | the users table of a single-user instance |
| `Anchors.dfy`, `Clip.dfy`, `AdvisoryCache.dfy`, `ApiStats.dfy`, `Activity.dfy` | two text sweeps, two bounded tables, idle mode |
| `Prelude.dfy`, `Seqs.dfy` | options; lists up to permutation |

`dafny verify dfyconfig.toml` checks the whole project.

## Where the code does less than its comments say

Each of these is a theorem: an input or a reachable state that shows it, and next to it exactly when the code does keep
the promise.

- A full refresh reads the rows it carries over before it takes the lock. What lands on such a repository in between is
  undone unless it is numbered above the refresh: a scoped merge (`Undone.ALateMergeIsUndone`,
  `Taken.LandingLeavesAloneIff`, `Taken.AWriteSinceIsUndone`), a tick (`Undone.ATickIsUndone`,
  `BoxRuns.LandingBoxesIff`) and a settled pull request (`Undone.ASettledOneComesBack`, `BoxRuns.LandingSettledIff`).
  When nothing of the kind happened since the rows were taken, all is kept (`Taken.UnwrittenIsLeftAlone`,
  `BoxRuns.UndisturbedIsClean`). The comments at `aggregator.go:303-307` and
  `bot_request.go:170-171` promise otherwise.
- A tick is to outlast every fetch begun before it, and by itself does (`TickRuns.NoEarlierFetchUndoesATick`). But a poll
  begun after it ends the override, and a repository fetch begun before it may land after that: it is not compared with
  the poll, and shows the box as it read it (`Undone.AnEarlierFetchUndoesATick`). That is so exactly when the override is
  gone by then (`TickRuns.AnEarlierFetchShows`).
- A debounce entry's generation restarts at one, so a late callback can fire, and a late cancellation drop, a later
  burst: exactly when that has had as many events (`Debounce.FiresEarlyIff`, `Debounce.DropsALiveOneIff`). Both states
  are reached (`Debounce.StaleCallbackReached`, `Debounce.StaleHookReached`).
- A subject let go and watched again gets a new record that does not wait for the old one
  (`CheckStream.RetiredSpeaksIff`, `CheckStream.AnOldListingReachesTheNewPage`); the page is right again when the old one
  has nothing left to say (`CheckStream.WatchedAgainShowsTheLastListing`).
- Auto-merge and auto-update remember only the last state tried (`AutoMerges.AnOlderStateIsTriedAgain`,
  `Updates.AnOlderStateIsTriedAgain`). Two calls for one state come too close only when the pull request read otherwise
  in between (`AutoMerges.TooSoonIff`, `Updates.TooSoonIff`).
- Several acknowledgement lookups can be out at once and each can bring a request back
  (`BotRequests.TwoLookupsReturnTwice`, `BotRequests.ReturnsAreBounded`), and a request seen landed late can outlive
  two sweeps (`BotRequests.TwoSweepsEndIt`).
- `AddCredential` reads the owner and writes later. Reached with nobody holding a passkey, two rows can end up with
  one (`Registration.WithoutASignInTwoCanHold`): exactly when an edit of another row is on its way
  (`Registration.AddKeepsOneOwnerIff`, `Registration.OtherwiseTwoHold`).
- A hidden report restarts the idle period only if no look has forgotten its tab, which the order of a map can decide
  (`Activities.ALateHideTellsIff`, `Activities.TheOrderDecides`).
- The comment at `store.go:236` says a username changes when a ceremony wins. No statement changes it, and the model
  follows the code.
- `dropOldestLocked` takes the empty id for none seen yet, so it finds the oldest tab only if no id is empty
  (`Activities.Oldest`); the API asks for ids of eight characters or more.

## Model

| member | source | states |
|---|---|---|
| `Coalesce.Coalescer.Arrive` | internal/dashboard/coalesce.go:47-61 | A call leads when nothing runs, and otherwise asks for a trailing run and learns which run it must outlast |
| `Coalesce.Coalescer.EndRun` | internal/dashboard/coalesce.go:63-79 | A run that ends releases its waiters and is followed at once by the trailing run, if one was asked for |
| `Coalesce.KeyedCoalescer.For` | internal/dashboard/coalesce.go:93-103 | Each key has one coalescer of its own, made on first use and kept |
| `Coalesce.RunsNeverOverlap` | internal/dashboard/coalesce.go:47-79 | In every interleaving runs never overlap, exactly one call leads while one is in flight, and runs never outnumber calls |
| `Coalesce.ReturnsAfterItsOwnRun` | internal/dashboard/coalesce.go:45-79 | A call that has returned saw a whole run that began at or after its arrival, and the first such |
| `Coalesce.ShareOneTrailingRun` | internal/dashboard/coalesce.go:48-79 | Calls that arrive during one run are all served by the next run, which is pending until it begins |
| `Coalesce.NoWaiterStranded` | internal/dashboard/coalesce.go:50-79 | An unreleased waiter has its run in flight or pending, behind a leader |
| `Coalesce.TwoCompletionsRelease` | internal/dashboard/coalesce.go:50-79 | Whatever else happens, two more completions let a waiter go |
| `Coalesce.KeysAreIndependent` | internal/dashboard/coalesce.go:81-103 | What one key goes through is what its own calls alone would make of a coalescer |
| `Writes.WriteSlot.RunWrites` | internal/dashboard/aggregator.go:714-727 | A snapshot starts a pass when none runs, and otherwise takes the queue, counting what it stands in for |
| `Writes.WriteSlot.FinishWrites` | internal/dashboard/aggregator.go:766-782 | A pass that ends hands its slot to the queued snapshot, or frees it |
| `Writes.OnePassAtATime` | internal/dashboard/aggregator.go:703-782 | At most one pass runs, a snapshot waits only while one does, and calls equal what the passes and the queue stand for |
| `Writes.NothingIsForgotten` | internal/dashboard/aggregator.go:700-704 | Every call is stood for by a pass on its own snapshot or a later call's, or else by the queue, which holds the newest call's |
| `Writes.StoodForOnce` | internal/dashboard/aggregator.go:703-714 | No call is stood for by two passes |
| `Writes.QueuedRunsNext` | internal/dashboard/aggregator.go:766-782 | The pass that ends is followed by one on the newest snapshot, standing for every call that waited |
| `Debounce.Due` | internal/dashboard/debounce.go:112-117 | The armed deadline is the later of now and the earlier of quiet from now and the end of the hold |
| `Debounce.Debouncer.Submit` | internal/dashboard/debounce.go:88-121 | An event re-arms its entry under a new generation with the newest fn, or arms nothing once the owner has ended |
| `Debounce.Debouncer.Fire` | internal/dashboard/debounce.go:123-137 | A callback takes its entry only under the entry's current generation |
| `Debounce.Debouncer.Drop` | internal/dashboard/debounce.go:139-147 | A cancelled context drops its entry only under the entry's current generation |
| `Debounce.Debouncer.Close` | internal/dashboard/debounce.go:76-86 | Closing drops every entry and refuses all that come later |
| `Debounce.FiresTheNewestOnce` | internal/dashboard/debounce.go:88-137 | An entry fires at most once, with the newest fn submitted to it, and takes nothing after |
| `Debounce.EveryEntryEndsOnce` | internal/dashboard/debounce.go:34-39 | Every entry ever made is exactly one of held, fired and dropped |
| `Debounce.NothingAfterClose` | internal/dashboard/debounce.go:76-97 | Once closed nothing is held, accepted or fired, late callbacks included |
| `Debounce.ClosingDropsAll` | internal/dashboard/debounce.go:76-86 | Once its owner is done the debouncer can close, which drops every held burst unfired |
| `Debounce.FiresWhenDue` | internal/dashboard/debounce.go:112-137 | In every run a held entry that is due has its timer, armed or started, and that timer fires its newest fn |
| `Debounce.OnlyTheNewestIsArmed` | internal/dashboard/debounce.go:101-118 | In every run nothing but the timer and the hook of its newest event is armed for a held entry |
| `LeftArmed.NothingLeftArmed` | internal/dashboard/debounce.go:118-147 | In every run what is armed belongs to a held entry or to one that another entry's callback ended, so a burst its own timer fired, its own context cancelled or the close dropped leaves nothing behind |
| `Debounce.CancellingDrops` | internal/dashboard/debounce.go:118-147 | In every run ending the context of a held entry's newest event drops it unfired |
| `Debounce.OverByTheEndOfTheHold` | internal/dashboard/debounce.go:15-19 | With timers on time, every burst older than the hold has fired, within the hold and with its newest fn, unless close or an ended context dropped it |
| `Debounce.FiresEarlyIff` | internal/dashboard/debounce.go:123-137 | A late callback takes the entry its key holds exactly when that has had as many events, and fires it early exactly when it was also armed for an earlier entry and the due time is to come |
| `Debounce.EarlyOnlyByAnEarlierEntry` | internal/dashboard/debounce.go:123-137 | In every run what fired early was fired by the callback of an earlier entry of its key |
| `Debounce.StaleCallbackFiresEarly` | internal/dashboard/debounce.go:101-137 | Such a callback fires the next burst of its key once that has had as many events |
| `Debounce.StaleCallbackReached` | internal/dashboard/debounce.go:112-147 | A run that leaves a timer's callback late with its entry gone |
| `Debounce.DropsALiveOneIff` | internal/dashboard/debounce.go:139-147 | A late cancellation drops the entry its key holds by the same test, and one whose own context is live exactly when it was hooked for an earlier entry |
| `Debounce.StaleHookDropsALiveBurst` | internal/dashboard/debounce.go:101-147 | Such a cancellation drops the next burst of its key, whose own context is live |
| `Debounce.StaleHookReached` | internal/dashboard/debounce.go:112-147 | A run that leaves a cancellation late with its entry gone |
| `Fetches.CollectAnswers` | internal/dashboard/aggregator.go:966-994 | Each pending source gets its answer if it came by the deadline and an unreachable result if not, whenever the deadline is noticed |
| `Fetches.OneFetchAtATime` | internal/dashboard/aggregator.go:895-905 | No source ever has two fetches in flight, within a pass or across passes |
| `Fetches.MarkedIff` | internal/dashboard/aggregator.go:948-958 | In every reachable state a source is marked exactly while a fetch of it is running |
| `Fetches.AskedIff` | internal/dashboard/aggregator.go:886-915 | A launch asks a source not held back exactly when no earlier fetch of it is still running, and answers busy exactly when one is |
| `Fetches.BusyOnlyWhileRunning` | internal/dashboard/aggregator.go:904-911 | In every run a pass has a busy result only for a source whose earlier fetch was running when the pass came to it |
| `Fetches.OneResultEach` | internal/dashboard/aggregator.go:866-994 | A pass that is over has exactly one result for each source |
| `Fetches.AlwaysRoom` | internal/dashboard/aggregator.go:876-878 | A late answer always finds room in its own pass's channel, so its goroutine ends |
| `Fetches.LateAnswersChangeNothing` | internal/dashboard/aggregator.go:948-958 | Whatever happens next, the results of a pass that is over stay as they are |
| `Fetches.AnswersAreItsOwn` | internal/dashboard/aggregator.go:869-979 | Every answer a pass counts was sent by the fetch that this pass started |
| `Fetches.TheDeadlineEndsIt` | internal/dashboard/aggregator.go:976-994 | Once every source is launched the deadline ends the pass: every answer that arrived with it counts, and only a source that sent none timed out |
| `Fetches.TimedOutSentNone` | internal/dashboard/aggregator.go:975-989 | Over every run a source times out of a pass only where the deadline struck with it awaited and none of its answers there |
| `Fetches.PassesGoOn` | internal/dashboard/aggregator.go:866-994 | However a pass ended the next can begin, and ends in its turn whatever the sources send |
| `FetchPasses.FetchPass.Arm` | internal/dashboard/aggregator.go:1033-1043 | A pass ends with the earliest of its timers |
| `FetchPasses.FetchPass.Join` | internal/dashboard/aggregator.go:1058-1073 | The first person to join adds the person's deadline, counted from the pass's start |
| `FetchPasses.NoClickIsMissed` | internal/dashboard/aggregator.go:923-937 | However a click and a pass's start interleave, the pass is to be over by the later of the click and start plus the person's deadline |
| `FetchPasses.NoPassIsCutShort` | internal/dashboard/aggregator.go:926-946 | No pass gets less than the person's deadline, and one nobody waits for gets the schedule's |
| `FetchPasses.ArmedFor` | internal/dashboard/aggregator.go:926-946 | A background pass begun with nobody waiting and joined by nobody keeps the schedule's deadline, and any other gets the person's |
| `FetchPasses.OverUntilPublished` | internal/dashboard/aggregator.go:940-945 | A pass that ends is over until another becomes visible, which starts afresh |
| `FetchPasses.CountedIff` | internal/dashboard/aggregator.go:926-937 | Whoever clicked is counted until they leave, whatever passes come and go, and nobody else is |
| `Merge.OthersUntouched` | internal/dashboard/aggregator.go:623-691 | A merge leaves every repository it does not name as it was: rows, numbers, marks, overrides and its own row |
| `Merge.NamedReplaced` | internal/dashboard/aggregator.go:784-817 | A named repository holds exactly its new rows less the settled ones, boxes put right, under the merge's number |
| `Polls.APollLands` | internal/dashboard/ci_poll.go:352-392 | Where nothing newer was merged, a poll leaves a pull request listed exactly if it was and is neither closed nor settled, an answered one as answered with its box put right, every other row, the issues and their number of copies as they were, and its own number; where something newer was merged nothing changes |
| `Polls.AFetchLands` | internal/dashboard/aggregator.go:784-817 | A scoped fetch leaves exactly the pull requests it read less the settled, boxes put right, exactly the issues it read, and its own number |
| `Polls.StaleMarksClear` | internal/dashboard/aggregator.go:1382-1404 | A repository's stale mark clears exactly when a fetch of the merge read the whole repository |
| `Merge.AnyOrder` | internal/dashboard/ci_poll.go:372-391 | Distinct repositories merged in any order give the same rows, numbers, marks and overrides |
| `Merge.NewestFirstAfter` | internal/dashboard/aggregator.go:843-855 | Both lists end newest first |
| `Refresh.FromAllSources` | internal/dashboard/aggregator.go:1100-1128 | Every row a refresh gathers it read itself, or carries over for a repository it did not fetch |
| `Refresh.NothingIsDropped` | internal/dashboard/aggregator.go:1367-1434 | Every row answered is gathered, and every row the forge had where a list failed, was skipped or was not asked for |
| `Refresh.LandedAt` | internal/dashboard/aggregator.go:1479-1514 | What landing leaves of a repository is, boxes aside, what the current snapshot holds if a newer merge wrote it, and the refresh's rows if not |
| `Refresh.ReachedIff` | internal/dashboard/aggregator.go:1150-1158 | The last word about a forge counts |
| `Outages.GoodIff` | internal/dashboard/aggregator.go:1096-1140 | Over every run the forges with a good answer are exactly those that answered in a refresh that landed |
| `Outages.AnOutageLosesNothing` | internal/dashboard/aggregator.go:1107-1116 | A forge that answered in a landed refresh and that a later one cannot reach loses nothing: every pull request but the settled, every issue and every repository row the board has of it is in what that refresh comes to |
| `Outages.HoldingBackLosesNothing` | internal/dashboard/aggregator.go:886-903 | And a forge held back on its budget keeps everything the board had when the refresh looked |
| `Outages.RepoRowsAssembled` | internal/dashboard/aggregator.go:1366-1434 | A forge's repository rows are the board's in an outage, the start's when held back, and otherwise the source's own, stale exactly where the source says so or part of the repository failed |
| `Ordered.NewestFirstAlways` | internal/dashboard/aggregator.go:843-855 | Over every run both lists of the board are newest first |
| `RefreshRuns.LandingNeverGoesBack` | internal/dashboard/aggregator.go:1466-1514 | In every run a landing refresh leaves each repository it fetched with the rows it had under a newer merge, or with its own, replacing none read later |
| `Taken.RepoRowNeverGoesBack` | internal/dashboard/aggregator.go:1516-1534 | In every run the repository's own row stays the board's under a newer merge, and a row the refresh read is no older than any it replaces |
| `Taken.CarriedAsItWas` | internal/dashboard/aggregator.go:1366-1434 | A repository carried over is gathered row for row as the snapshot it is taken from had it |
| `Taken.UnwrittenIsLeftAlone` | internal/dashboard/aggregator.go:1366-1434 | In every run landing leaves a repository carried over as it was, if nothing merged, polled or took a pull request off it since its rows were taken |
| `Taken.LandingLeavesAloneIff` | internal/dashboard/aggregator.go:1466-1478 | In every run landing leaves a repository carried over as it was exactly when a newer merge wrote it last or the board still holds the rows that were taken |
| `Taken.AWriteSinceIsUndone` | internal/dashboard/aggregator.go:1095-1143 | Whatever is written since and not numbered above the refresh, landing takes the repository back to what it was before |
| `BoxRuns.LandingBoxesIff` | internal/dashboard/bot_request.go:234-242 | A landing keeps every box right exactly when each row it carries over already shows the box set here |
| `BoxRuns.LandingSettledIff` | internal/dashboard/aggregator.go:1129-1143 | A landing keeps the settled off the board exactly when nothing it brings was settled meanwhile |
| `BoxRuns.UndisturbedIsClean` | internal/dashboard/bot_request.go:195-232 | A landing keeps boxes and settled marks if since its row was taken no carried-over pull request was ticked or cancelled and nothing it brings was settled |
| `BoxRuns.WhatWasSetHereStays` | internal/dashboard/bot_request.go:195-232 | Over every run of ticks, settles, scoped merges, polls and landings so undisturbed a listed pull request shows its override and a settled one stays off |
| `BoxRuns.OnlyALaterFetchEnds` | internal/dashboard/bot_request.go:211-231 | Only a later fetch that covers the pull request, and read it or lists it no more, ends an override |
| `BoxRuns.AScopedFetchSettles` | internal/dashboard/bot_request.go:195-232 | A scoped fetch ends an override exactly when it began after it, and holds a settled mark exactly while it lists it within its window |
| `BoxRuns.ALandingSettles` | internal/dashboard/bot_request.go:223-231 | A landing ends an override exactly when it began after it and read the row or lists it no more |
| `TickRuns.NoEarlierFetchUndoesATick` | internal/dashboard/bot_request.go:166-232 | Over every run, by positions: until the box is set again or a fetch begun after the tick lands, no landing, of whichever fetch begun before it, ends the override or leaves the pull request with another box, but for a full refresh that lands the row carried over |
| `TickRuns.AnEarlierFetchShows` | internal/dashboard/bot_request.go:195-224 | A scoped fetch under way at the tick that lands later shows the box as set here exactly while the override stands, and else as it read it itself |
| `TickRuns.ReadingIff` | internal/dashboard/aggregator.go:550-561 | Over every run, by positions: a fetch of a repository is under way exactly from where one begins that finds none to where it fails or lands, numbered just above all begun before |
| `TickRuns.PollingIff` | internal/dashboard/ci_poll.go:229-234 | And a poll from where it begins to where its answer lands, once |
| `Undone.CarriedAndUnwritten` | internal/dashboard/aggregator.go:1095-1123 | A run that carries a repository over with nothing written since its rows were taken |
| `Undone.ALateMergeIsUndone` | internal/dashboard/aggregator.go:1095-1143 | A reachable state where landing takes a merged pull request off the board: its rows were carried over first |
| `Undone.ATickIsUndone` | internal/dashboard/bot_request.go:195-201 | A reachable state where a tick made while its row was carried over is shown unticked after landing |
| `Undone.AnEarlierFetchUndoesATick` | internal/dashboard/aggregator.go:784-817 | A run where a poll begun after the tick ends the override, and a repository fetch begun before the tick then lands and shows the box unticked |
| `Undone.ASettledOneComesBack` | internal/dashboard/aggregator.go:1129-1143 | A reachable state where a pull request settled while its row was carried over comes back |
| `Aggregators.RepoPullRequestsAfter` | internal/dashboard/ci_poll.go:394-413 | The repository's rows with the closed dropped and the answered swapped in, in their order |
| `Aggregators.KeepRowsOf` | internal/dashboard/aggregator.go:1516-1534 | The last current row of each newer repository replaces the refresh's |
| `Aggregators.WithoutStale` | internal/dashboard/aggregator.go:1382-1404 | The stale mark clears on the fetched repositories and nowhere else |
| `Aggregators.KeepFailed` | internal/dashboard/aggregator.go:1406-1434 | What the forge had is put back for each repository whose list failed |
| `Aggregators.TakeIn` | internal/dashboard/aggregator.go:1101-1126 | One source's list: its own rows and what is put back, or all the forge had |
| `Aggregators.Gather` | internal/dashboard/aggregator.go:1100-1128 | The rows of every source, and which forges have a good answer to carry over |
| `Aggregators.PollTables` | internal/dashboard/ci_poll.go:360-371 | The repositories a poll touches and its answers by key, the last one winning |
| `Aggregators.LastWins` | internal/dashboard/ci_poll.go:366-373 | Of several answers about one pull request the last one counts |
| `Aggregators.Aggregator.WithoutSettled` | internal/dashboard/aggregator.go:361-398 | Held pull requests are dropped, and marks past their window or no longer listed are forgotten within the scope only |
| `Aggregators.Aggregator.SettleRow` | internal/dashboard/bot_request.go:211-222 | One listed row: its box is put right, or its override retired |
| `Aggregators.Aggregator.SettleBoxOverrides` | internal/dashboard/bot_request.go:195-232 | Boxes are put right in place and the overrides that are over are forgotten |
| `Aggregators.Aggregator.MergedRepo` | internal/dashboard/aggregator.go:784-817 | One repository's entries replaced, with the tables it settles on the way |
| `Aggregators.Aggregator.MergeReposFrom` | internal/dashboard/aggregator.go:655-691 | Several repositories merged in one go, the stale marks of the fetched ones cleared |
| `Aggregators.Aggregator.MergePendingResult` | internal/dashboard/ci_poll.go:352-392 | A poll's answer merged repository by repository in whatever order the map gives, landed wherever nothing newer was merged, with every other repository as it was |
| `Aggregators.Aggregator.KeepNewerScopedRepos` | internal/dashboard/aggregator.go:1466-1514 | A refresh takes over the current entries of every repository a newer merge wrote |
| `Aggregators.Aggregator.Assemble` | internal/dashboard/aggregator.go:1092-1133 | What every source came back with, gathered, settled and sorted |
| `Aggregators.Aggregator.Land` | internal/dashboard/aggregator.go:1135-1143 | The refresh lands over what came in meanwhile, and the good answers it counted are kept |
| `Aggregators.Aggregator.SetRenovateRebaseBox` | internal/dashboard/bot_request.go:92-144 | A tick sets the box on the board and an override under the newest fetch begun |
| `Aggregators.Aggregator.MarkSettled` | internal/dashboard/aggregator.go:303-327 | A settled pull request leaves the board and is marked |
| `RunGroups.GroupRuns` | internal/dashboard/run_groups.go:39-60 | One group per key in first-seen order with all its jobs and the first facts, keys distinct |
| `RunGroups.GroupsAreDistinct` | internal/dashboard/run_groups.go:36-60 | A grouping never names a key twice |
| `RunGroups.TogetherIff` | internal/dashboard/run_groups.go:39-60 | Two jobs are in one group exactly when they are of one run attempt, or of no run and alike in address and name |
| `RunGroups.DescribedBy` | internal/dashboard/run_groups.go:54-56 | A group is described by the first of its jobs of a run that says anything of it |
| `CheckWatches.WatchedSubject.Events` | internal/api/check_stream.go:249-282 | The events that bring a page up to date, and the keys remembered for the next listing |
| `CheckWatches.CheckWatch.ListLocked` | internal/api/check_stream.go:184-190 | A listing takes the watch to the machine's next state: a new generation, the row it saw, and a fetch on its way |
| `CheckWatches.CheckWatch.Set` | internal/api/check_stream.go:151-169 | The loop over the subjects takes the watch to the state the machine's step gives |
| `CheckWatches.CheckWatch.OnSnapshot` | internal/api/check_stream.go:171-182 | The loop over the subjects in any order takes the watch to the state the machine's step gives |
| `CheckWatches.CheckWatch.Answer` | internal/api/check_stream.go:198-209 | Takes the watch to the machine's state, and sends nothing for a generation that is not the record's |
| `CheckWatches.CheckWatch.Deliver` | internal/api/check_stream.go:240-247 | Handing one event over takes the watch to the machine's state |
| `CheckStream.ListingReplaces` | internal/api/check_stream.go:249-282 | Folding one listing over a page that holds the earlier one gives exactly the new groups |
| `CheckStream.WholeListingsInOrder` | internal/api/check_stream.go:123-128 | What reaches the page for a subject is whole listings in the order worked out, each from a newer fetch |
| `CheckStream.OneFinalEach` | internal/api/check_stream.go:203-208 | A listing closes with one final event, its last; a refusal is one event that is not final |
| `CheckStream.OvertakenAddsNothing` | internal/api/check_stream.go:198-209 | A fetch once overtaken, or of a subject let go, never contributes: whatever happens no listing is made of it after, and nothing but listings is handed over |
| `CheckStream.NewestIsNotLost` | internal/api/check_stream.go:184-228 | The newest fetch of a watched subject is in flight, or its listing is the last one made |
| `CheckStream.PageShowsTheLastListing` | web/src/lib/check-feed.ts:194-241 | Folding a subject's events over an empty page gives exactly the groups of the last listing |
| `CheckStream.SnapshotListsWhatMoved` | internal/api/check_stream.go:171-190 | A snapshot lists a subject exactly when its row is there and reads differently, or after a refusal |
| `Relisted.SetAsksAbout` | internal/api/check_stream.go:151-169 | A new set replaces the last: a subject watched before keeps its record and is asked about again exactly on a refresh, a new one is asked about always |
| `Relisted.ARefusalIsAskedAgain` | internal/api/check_stream.go:131-203 | In every run a list that could not be had is asked for again at the next snapshot with the subject's row, moved or not |
| `Relisted.SameRowsAskNothing` | internal/api/check_stream.go:171-190 | The same rows looked at twice ask about nothing the second time |
| `CheckStream.RetiredSpeaksIff` | internal/api/check_stream.go:157-168 | A record no longer followed still puts events on the stream exactly when a listing of it is being handed over |
| `CheckStream.WatchedAgainShowsTheLastListing` | internal/api/check_stream.go:153-228 | A subject watched again with nothing of it still being handed over: folding all its events since gives exactly its last listing |
| `CheckStream.AnOldListingReachesTheNewPage` | internal/api/check_stream.go:123-128 | A run where a subject watched again is told of a group its new record never listed |
| `CheckStream.NothingAfterClosing` | internal/api/check_stream.go:238-247 | Once the stream has closed nothing more is asked about or handed over |
| `BotRequests.BotEntry.Advance` | internal/dashboard/bot_request.go:293-318 | One snapshot applied to a request in place |
| `BotRequests.Registry.ApplyBotRequests` | internal/dashboard/bot_request.go:249-269 | Each request is moved along if listed, and dropped if its pull request is really gone |
| `BotRequests.Registry.Record` | internal/dashboard/bot_request.go:119-132 | A request is queued under the newest fetch begun, replacing an earlier one |
| `BotRequests.Registry.ClearBox` | internal/dashboard/bot_request.go:141-143 | Clearing the box drops a Renovate request waiting on it |
| `BotRequests.Registry.PendingAcks` | internal/dashboard/bot_ack.go:45-70 | Exactly the unacknowledged Dependabot rebases that are not rebasing are asked about |
| `BotRequests.Registry.RecordAck` | internal/dashboard/bot_ack.go:72-93 | A yes is recorded on the request it was asked for, and brings an expired one back |
| `BotRequests.EveryRequestEnds` | internal/dashboard/bot_request.go:293-318 | Past its deadline and the keep time a request is gone by any sweep two minutes after the next |
| `BotRequests.TwoSweepsEndIt` | internal/dashboard/bot_request.go:293-318 | Two sweeps past that time end it unless the first showed it landed, CI not restarted, and the second came too soon |
| `BotRequests.LandsByALaterFetch` | internal/dashboard/bot_request.go:71-79 | A request counts as landed only by a fetch numbered after it that shows the bot acted |
| `BotRequests.StaysQueued` | internal/dashboard/bot_request.go:293-306 | By positions: a request stays queued as it was made for its ten minutes unless a fetch begun after it shows that the bot acted, the bot says yes, or the pull request is gone |
| `BotRequests.MadeUnder` | internal/dashboard/bot_request.go:119-132 | The number a request is made under is that of the newest fetch begun |
| `BotRequests.LeavesTheQueue` | internal/dashboard/bot_request.go:293-306 | And a sweep that lists it then takes it on: over or rebasing by what a later fetch shows, expired by the clock |
| `BotRequests.KeptAfterwards` | internal/dashboard/bot_request.go:307-315 | One that landed is kept until CI restarts or two minutes pass, an expired one for an hour |
| `BotRequests.UnlistedFares` | internal/dashboard/bot_request.go:255-263 | A request whose pull request is not listed is dropped exactly where the fetch covers its repository |
| `BotRequests.ClearingTakes` | internal/dashboard/bot_request.go:134-144 | Clearing a box takes Renovate's request for that pull request and no other |
| `BotRequests.AsksAbout` | internal/dashboard/bot_ack.go:45-70 | A look asks about exactly the rebases Dependabot has neither acknowledged nor begun |
| `BotRequests.AYesCounts` | internal/dashboard/bot_ack.go:72-93 | A yes is recorded on the request it was asked for and no other, which waits anew unless it is rebasing |
| `BotRequests.ReturnsAreBounded` | internal/dashboard/bot_ack.go:45-93 | A request comes back from expired at most once per lookup out at the first yes, and never before it |
| `BotRequests.OnlyAYesGoesBack` | internal/dashboard/bot_ack.go:86-92 | Only a yes to a lookup of its own moves a request back |
| `BotRequests.NoLookupAfterAYes` | internal/dashboard/bot_ack.go:54-56 | After a yes no further lookup is ever made for the request; those on their way only dwindle |
| `BotRequests.TwoLookupsReturnTwice` | internal/dashboard/bot_ack.go:28-43 | Two lookups out at once can bring one request back twice |
| `Registration.Store.HasAnyRegisteredUser` | internal/auth/store.go:327-343 | Whether any row holds a passkey |
| `Registration.Store.Claim` | internal/auth/store.go:258-303 | The transaction that claims the owner's row and drops abandoned ones |
| `Registration.Store.CreateUser` | internal/auth/store.go:184-218 | A row is added under an unused name, and none under a used one |
| `Registration.Store.AddFirstCredential` | internal/auth/store.go:475-542 | The three statements that let the first passkey win |
| `Registration.Store.RemoveCredential` | internal/auth/store.go:709-745 | An unknown passkey is no error and the last one is never removed |
| `Registration.LessRemoves` | internal/auth/store.go:709-745 | Removing a passkey removes that one alone, and never the last |
| `Registration.UpdateReplaces` | internal/auth/store.go:544-562 | Changing a passkey saves the owner's others as they were, and an unknown one changes nothing |
| `Registration.OwnerIn` | internal/auth/store.go:345-360 | The owner is a row of the table, and one that holds a passkey if any does |
| `Registration.FirstWins` | internal/auth/store.go:475-542 | A registration attaches exactly when its row is unfinished and nobody holds a passkey, and is then alone; a refused one leaves no row of its own |
| `Registration.ClaimedHas` | internal/auth/store.go:231-241 | Claiming touches no passkey and drops only unfinished rows other than the claimed |
| `Registration.ClaimTakesTheOwnersRow` | internal/auth/store.go:231-241 | With nobody registered the row claimed is the owner's |
| `Registration.ClaimDropsTheAbandoned` | internal/auth/store.go:284-287 | The other unfinished rows left are exactly those young enough to be finished |
| `Registration.OneWinsBetweenResets` | internal/auth/store.go:475-542 | From any table and by positions: between any two first registrations that win a reset is written |
| `Registration.OnlyAResetLocksOut` | internal/auth/store.go:703-735 | Nothing but a reset takes the last passkey of whoever holds one |
| `Registration.AtMostOneHolder` | internal/auth/store.go:463-542 | From any table with at most one holder, every interleaving keeps at most one, if no passkey is added while an edit of another row is on its way |
| `Registration.AddKeepsOneOwnerIff` | internal/auth/store.go:463-473 | A read of passkeys to add keeps the one owner exactly when every edit on its way is for the row the owner query picks |
| `Registration.OtherwiseTwoHold` | internal/auth/store.go:463-473 | And otherwise the edits then on their way leave two holders once saved |
| `Registration.SignedInIsEnough` | internal/auth/store.go:463-473 | That is so in every run in which whoever adds a passkey holds one |
| `Registration.WithoutASignInTwoCanHold` | internal/auth/store.go:463-473 | A run from a table with one holder in which nobody who adds a passkey holds one, and two rows end up with passkeys |
| `Registration.NeverASecondRow` | internal/auth/store.go:231-303 | On a fresh instance there is never a second row |
| `Registration.OwnerKeepsItsId` | internal/auth/store.go:370-377 | The owner's row keeps its id across every reset and registration |
| `Registration.AFreshInstanceRegisters` | internal/auth/store.go:258-303 | With no row at all, a claim, the row it makes and its passkey give the one owner |
| `Dependabots.Hook.Reconcile` | internal/dashboard/auto_update_branch.go:375-423 | Each watched pull request is let go once its CI resolves or it is gone, a failing one with a recreate |
| `Dependabots.Hook.Prune` | internal/dashboard/auto_update_branch.go:425-442 | Attempts are kept for behind pull requests only |
| `Dependabots.Hook.Rebase` | internal/dashboard/auto_update_branch.go:350-373 | A rebase is asked for only where none is watched or attempted, and remembered only if accepted |
| `Dependabots.Hook.Run` | internal/dashboard/auto_update_branch.go:133-193 | The pass: clean-up first, then the behind pull requests it reaches |
| `Dependabots.CleanAfterEachPass` | internal/dashboard/auto_update_branch.go:375-442 | After each pass only open pull requests are watched and only behind ones count as attempted |
| `Dependabots.OneRebaseWhileBehind` | internal/dashboard/auto_update_branch.go:50-56 | However long a pull request stays behind, at most one rebase is accepted for it meanwhile |
| `Dependabots.RebasesPerSpell` | internal/dashboard/auto_update_branch.go:50-56 | Each further accepted rebase takes a pass that saw the pull request no longer behind |
| `Dependabots.RecreatesAreEarned` | internal/dashboard/auto_update_branch.go:375-423 | Over any run recreates never exceed accepted rebases |
| `Dependabots.AskedOnceReached` | internal/dashboard/auto_update_branch.go:350-373 | A wanted, behind pull request not yet attempted is asked about once a pass gets to it |
| `Dependabots.RebasedIff` | internal/dashboard/auto_update_branch.go:350-373 | A pass has a rebase accepted exactly for a reached, wanted, behind, undrafted pull request of Dependabot's that nothing is waited on for and none was accepted for in this spell, where the forge takes it |
| `Dependabots.WatchedFares` | internal/dashboard/auto_update_branch.go:403-422 | A watched pull request whose CI failed is answered by a recreate and let go, one that passed is let go, one still running is watched on |
| `Dependabots.OthersFare` | internal/dashboard/auto_update_branch.go:403-409 | One that is gone is let go, and nothing is recreated that was not watched |
| `AutoMerges.AutoMerge.Begin` | internal/dashboard/auto_merge.go:223-236 | A merge may begin exactly when no attempt for this state stands, and is then on record |
| `AutoMerges.AutoMerge.Failed` | internal/dashboard/auto_merge.go:238-259 | A transient failure may be tried again after the wait, any other stands |
| `AutoMerges.AutoMerge.Prune` | internal/dashboard/auto_merge.go:282-291 | Only the attempts of armed pull requests are kept |
| `AutoMerges.MergesAreSpaced` | internal/dashboard/auto_merge.go:115-147 | Between any two merge calls for one armed pull request that read the same all along the first failed transiently and the wait went by |
| `AutoMerges.TooSoonIff` | internal/dashboard/auto_merge.go:223-236 | Where a call for the state at hand has not waited, another is let through exactly when the last call was for another state or has waited, and only if the pull request read otherwise since |
| `AutoMerges.HeldBackOnlyMeanwhile` | internal/dashboard/auto_merge.go:223-236 | No merge is held back but while the last one for the same state stands |
| `AutoMerges.AnOlderStateIsTriedAgain` | internal/dashboard/auto_merge.go:230-233 | A pull request that changes and then reads as before is merged again at once, though refused for good |
| `Updates.Updater.BeginUpdate` | internal/dashboard/auto_update_branch.go:265-280 | An update may begin exactly when no attempt for this state stands, and is then on record |
| `Updates.Updater.FailedUpdate` | internal/dashboard/auto_update_branch.go:282-296 | A conflict stretches the wait |
| `Updates.Updater.ClearUpdate` | internal/dashboard/auto_update_branch.go:298-304 | A success is forgotten |
| `Updates.Updater.PruneUpdateAttempts` | internal/dashboard/auto_update_branch.go:306-323 | Only the attempts of behind pull requests are kept |
| `Updates.UpdatesAreSpaced` | internal/dashboard/auto_update_branch.go:86-104 | Between any two updates for one behind, unchanged pull request with no success since five minutes went by, an hour if the first met a conflict |
| `Updates.TooSoonIff` | internal/dashboard/auto_update_branch.go:265-280 | Where a call for the state at hand has not waited, another is let through exactly when the last call was for another state or has waited, and only if the pull request read otherwise since |
| `Updates.AnOlderStateIsTriedAgain` | internal/dashboard/auto_update_branch.go:274-278 | A pull request that changes and then reads as before is updated again at once, though it met a conflict |
| `Updates.HeldBackOnlyMeanwhile` | internal/dashboard/auto_update_branch.go:265-280 | No update is held back but while the last one for the same state stands |
| `Anchors.BlankAnchors` | internal/dashboard/mentioned_issues.go:313-342 | The sweep blanks exactly the places in an anchor no other opening tag disturbs, keeping length and line breaks |
| `Clips.LastOpenSeparator` | internal/dashboard/mentioned_issues.go:246-273 | The last separator that lies in no bracket run, a run longer than an address being a stray bracket |
| `Clips.CutBack` | internal/dashboard/mentioned_issues.go:275-288 | The last place at or before the limit where a white-space character starts |
| `Clips.Clip` | internal/dashboard/mentioned_issues.go:217-234 | A prefix within the limit, cut at whitespace or else at a separator in no bracket run |
| `Clips.AddressHides` | internal/dashboard/mentioned_issues.go:246-273 | With one bracketed address, a comma or semicolon is a place to cut exactly unless the address is open there and began within the longest run |
| `Clips.DropOpenAnchor` | internal/dashboard/mentioned_issues.go:290-311 | Text after an open tag is kept only where it is too long to be an anchor's, and nothing is dropped where no anchor is open |
| `AdvisoryCaches.BackoffDoubles` | internal/advisorycache/cache.go:29-33 | The wait doubles with every failure up to the cap, the clamped shift notwithstanding |
| `AdvisoryCaches.Cache.Get` | internal/advisorycache/cache.go:64-72 | A key answers with the last thing stored under it or nothing, and whether it is fresh |
| `AdvisoryCaches.Cache.Put` | internal/advisorycache/cache.go:74-127 | A write is kept, the limit holds, and a live entry goes only when every spent one is gone and no further than the limit asks |
| `AdvisoryCaches.Cache.Update` | internal/advisorycache/cache.go:81-89 | The entry becomes what is made of the old one, and the others fare as under any write |
| `AdvisoryCaches.Cache.Evict` | internal/advisorycache/cache.go:129-152 | What eviction drops, in whatever order it meets the entries |
| `AdvisoryCaches.KeptIff` | internal/advisorycache/cache.go:129-152 | As long as what is fresh or held fits beside the entry just written exactly that is kept, and otherwise the table is left full |
| `ApiStats.Counters.Add` | internal/apistats/apistats.go:87-110 | A call is added to its own row, or past the cap to its group's overflow row |
| `ApiStats.NothingIsLost` | internal/apistats/apistats.go:52-58 | A group's rows add up to exactly what its calls spent |
| `ApiStats.OwnRowsAreExact` | internal/apistats/apistats.go:87-110 | A repository with a row of its own has an exact count |
| `ApiStats.RowsAreBounded` | internal/apistats/apistats.go:52-58 | Rows never outnumber the cap by more than the groups seen |
| `Activities.Activity.IdleLocked` | internal/dashboard/activity.go:223-237 | Idle is said exactly when no tab holds the dashboard and the period is up, whatever order the tabs come in |
| `Activities.LooksDoNotMatter` | internal/dashboard/activity.go:223-237 | Over every run, which gone tabs the looks forget and in what order changes no answer and no wake, if hidden reports come from tabs counted or not known |
| `Activities.ALateHideTellsIff` | internal/dashboard/activity.go:105-126 | A hidden report from a tab that has gone starts the idle period anew exactly when no look has forgotten the tab |
| `Activities.TheOrderDecides` | internal/dashboard/activity.go:223-237 | And the order a look takes the tabs in can decide that |
| `Activities.WakeIff` | internal/dashboard/activity.go:89-137 | Over every run a wake waits exactly when some use found the dashboard idle and nobody has read or discarded it since |
| `Activities.LastUsedAt` | internal/dashboard/activity.go:89-137 | Over every run the idle period counts from the last use, or the start |
| `Activities.HeldIff` | internal/dashboard/activity.go:105-137 | Over every run where no tab had to make room, a tab holds the dashboard exactly when it was shown lately and neither hidden nor reset since |
| `Activities.MakesRoom` | internal/dashboard/activity.go:127-134 | A new tab in a full table takes the place of one heard from longest ago, and of no other |
| `Activities.TableBounded` | internal/dashboard/activity.go:127-134 | Over every run the table keeps within its bound |
| `Activities.Activity.Touch` | internal/dashboard/activity.go:89-103 | A use that finds the dashboard idle leaves a wake, and one in use leaves none of its own |
| `Activities.Activity.Present` | internal/dashboard/activity.go:105-137 | A visible tab holds the dashboard, within the cap, and a hidden one lets go |
| `Activities.Oldest` | internal/dashboard/activity.go:175-184 | The tab dropped is the one heard from longest ago, if no tab has an empty id |

## Left out

- Default-branch rows, forge health and rate limits: they ride along in a snapshot, and no rule of the merge reads them but the one that keeps an unreachable forge's rows.
- `StaleSince` and `FailingSince` times: a repository row carries a stale mark without its date.
- `mergedRepo` does not look at the last full refresh or poll, so a scoped merge may bring older rows than one that landed meanwhile; nothing is claimed of it but what `TickRuns.AnEarlierFetchShows` says of boxes.
- The order of rows with the same update time: sorting is a function here, and no lemma depends on how it breaks ties.
- Bot and update requests marked on the rows: the registry is modelled on its own, and a row does not carry them. `updateEntry` follows the same rule as `botEntry` with fewer phases.
- Fetch numbers, generations and epochs are unbounded here; the source uses 64-bit counters and machine integers.
- Keys are records here, not strings; `settledKey`, `parseAutoMergeKey` and the other encodings are not part of this model.
- Taken.CarriedAsItWas: a forge has one source, which lists each pull request once, brings rows of its own forge only, and none of a list it reports as failed or skipped; a source that was not reached brings none. `source.go:10-40` says so, and nothing is claimed of a source that does otherwise.
- Outages.AnOutageLosesNothing: a forge has one source, which names repositories of its own forge.
- BoxRuns.WhatWasSetHereStays: besides, a scoped fetch lists each pull request once and only of the repository asked.
- Coalesce.KeyedCoalescer.For: a run's function is taken to end; panics in it are left out, as is the failure to marshal an event in `list`.
- Coalesce.Coalescer.Arrive: the condition variable and the locks are one atomic step each; contexts, goroutines and real timers are steps that may come at any time.
- Writes.WriteSlot.RunWrites: the write budget and what a pass does to the forge are left out; when a pass ends is any time.
- BotRequests.Registry.ApplyBotRequests: the registry's map holds values, and each is moved along through an entry object; that a reader could hold a reference to an entry is not modelled.
- CheckWatches.CheckWatch.OnSnapshot: all lists one snapshot starts remember the rows of one moment; the class is the stream while it is open, and its end is a step of the machine only.
- CheckStream.PageShowsTheLastListing: closing the stream is final; a page that reconnects starts from empty.
- Registration.SignedInIsEnough: sessions and ceremonies are left out; that whoever adds a passkey holds one is a condition of the run. Row ids are never reused, and the clock does not run backwards.
- Dependabots.Hook.Run: which pull requests the settings want, drafts and authors are facts of the row; release-please and Renovate's label are left out.
- AutoMerges.AutoMerge.Failed: the failures and merges kept for the report are left out, as is cancelling empty pull requests.
- ApiStats.Counters.Add: sums are unbounded, and the order of `Snapshot` is left out.
- AdvisoryCaches.Cache.Put: a negative `Max` is left out; `Expire`, `Len` and `Remaining` would only add easy members.
- Clips.Clip: a text is its bytes, and where a white-space character starts is given, as is what the anchor patterns find in the part kept. The reference patterns themselves are left out.
- `judgePending`, `unanswered`, `groupByRepo` and the poll schedule: they sort a poll's answer and would only add easy members.
- HTTP handlers, JSON, the stream's writer, SQL itself, WebAuthn, logging and wiring.
