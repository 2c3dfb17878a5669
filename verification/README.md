# rt-test daemon: verified models

rt-test is a daemon that reruns a worktree's tests as its files change. It discovers workspaces, runs the ones whose
inputs moved, and proves tests by mutating code and watching them fail. Most of what it promises is promised over
whole runs: a journal that forgets but still answers, counts that tell the daemon's own changes from edits, jobs an
abort can end at any point, connections whose answers come late. This project states those promises in Dafny and proves
them of models of the code.

Verify it with `dafny verify dfyconfig.toml`.

## How the files correspond

| files | what they model |
|---|---|
| `Cursors`, `ChangeJournal` | the bounded log of replaced standings behind the changes query, as a class beside a ghost history of every snapshot recorded |
| `ChangeSets`, `ChangeRecord`, `ChangeTraces` | attributing each input change to a job or an edit, and what that keeps over every trace of jobs, reports and readings |
| `RunHistory`, `RunTraces`, `DiscoveryHistory` | counting due times the daemon caused itself, holding at the bound, releasing at an edit |
| `RecordedRuns` | the run history over the change record: what a run's window lists is what the next due time finds |
| `DueWorkspaces`, `Scheduler`, `Quiescence` | one plan of the scheduler and the job it begins, and the measure that every job shrinks |
| `FalsificationPlan`, `PlanTurns` | which waiting definitions a falsification job takes, and why looks at one revision end |
| `Verdict`, `RunFacts`, `FalsifyWorkspace`, `FalsificationRunTraces` | a falsification job run by run, the facts read from its record, the judge, and end to end what `detected` means |
| `Falsification` | what is stored and marked when such a job ends |
| `RunJudgment` | the watch that interrupts a worthless run, and the judgment it must agree with |
| `ProbeStep`, `ReachProbe`, `AnchorMatch` | finding and replacing an anchor, and placing a reach probe in a syntax tree |
| `LineDecoder`, `Server` | the chunked line framing and a connection's ordered answers |
| `CarriedVariables` | the closure of variables that env files can carry to tests |
| `StartLock` | two starts racing over a dead process's lock, file step by file step |
| `Waits` | wait queries: bound once, answered once, settled only when nothing covered changed |
| `TestIdentity` | telling equal-named tests of a module apart |

A class whose methods update its fields in the source is a class here, proved method by method against functions on the
value of its fields; what holds over every run is then proved of those functions. A `ghost` history, log or answer map
stands for what the source no longer holds.

## Where a reader may expect more than the code does

Three statements are natural to expect of the code and are not true of it. The code is modelled as it is; each has a
concrete run or the exact condition.

- *Three due times in a row that share an input hold the workspace* (packages/daemon/src/daemon/run-history.ts:20). A
  count that starts again forgets the paths it had not shared. `RecordedRuns.ThreeInARowNotHeld` is a run of the change
  record and the history in which three successive due times all change `b` with no hold; `RunTraces.HeldExactly` says
  when a hold comes: the count must have started at the first of the three.
- *Planning again without a new run never raises the count.* Changes read between two plans can be the first to count,
  or newly share a path. `RunTraces.RaisedExactly` gives the exact condition over any two plans, and
  `RunTraces.PlanningAgainKeeps` that the same changes decide the same.
- *The start lock, when it is there, names a start that holds it or a process that ended.* A start can release while the
  other has its lock aside, as in `StartLocks.ReleaseCanLeaveItsLock`: the lock is put back, naming a process that runs
  and has released it. `StartLocks.StrayExactly` says that this put-back is the only way there and that nothing ends it.
  While nobody releases the lock does name the one holder (`StartLocks.ExactlyOneWins`), and at every interleaving at
  most one start believes it holds it.

## Model

| member | source | states |
|---|---|---|
| Cursors.CursorRoundTrip | packages/daemon/src/daemon/change-journal.ts:165-178 | A text reads as a sequence exactly when it is the cursor issued for that sequence, and only for 1 to the latest, whatever separators the daemon's life holds |
| Cursors.SequenceFormIsDecimal | packages/daemon/src/daemon/change-journal.ts:170-178 | The sequence form a cursor is read by is the decimal form it is issued in |
| ChangeJournals.ChangeJournal.Record | packages/daemon/src/daemon/change-journal.ts:75-108 | Takes the new snapshot, moves the sequence only when some standing is not the same, and returns a cursor that is never expired |
| ChangeJournals.CutOldest | packages/daemon/src/daemon/change-journal.ts:154-163 | Drops whole oldest sequences until the held changes are below the bound, and no more than that takes |
| ChangeJournals.ChangeJournal.ExpiryIsCounted | packages/daemon/src/daemon/change-journal.ts:138-163 | A sequence lies before the last dropped exactly when the bound or more changes were recorded after it in the whole history |
| ChangeJournals.ChangeJournal.Usable | packages/daemon/src/daemon/change-journal.ts:115-152 | A cursor is not issued, expired or usable exactly by the whole history, not by what is still held |
| ChangeJournals.ChangeJournal.Since | packages/daemon/src/daemon/change-journal.ts:120-136 | For a usable cursor, exactly the keys whose standing in every snapshot recorded at that cursor is not the same as now, each once, with that snapshot's value, whatever was dropped |
| ChangeJournals.RememberNext | packages/daemon/src/daemon/change-journal.ts:75-108 | The log rewinds the latest snapshot to every one recorded, still after one more is recorded |
| ChangeJournals.ChangeJournal.NetFromHeld | packages/daemon/src/daemon/change-journal.ts:120-136 | Reading only the held changes gives the net change from the moment's full snapshot |
| SubjectChanges.ChangeSets.AddJob | packages/daemon/src/daemon/change-record.ts:33-40 | Every path goes in with the job or the whole overflows to everywhere, whatever the order, and the counter stays the size of the union |
| SubjectChanges.ChangeSets.AddEdits | packages/daemon/src/daemon/change-record.ts:42-48 | Every edit goes in, or the whole overflows to everywhere |
| SubjectChanges.ChangeSets.MoveToEdits | packages/daemon/src/daemon/change-record.ts:50-54 | Job changes become edits, none counted anew |
| SubjectChanges.ChangeSets.Counts | packages/daemon/src/daemon/change-record.ts:63-71 | A path is counted once however many sets hold it; past the bound both sets are empty and everything counts as edited |
| SubjectChanges.AddedJobMore | packages/daemon/src/daemon/change-record.ts:33-71 | Adding one path more after others is adding them all at once, also where that overflows, so the order paths come in decides nothing |
| ChangeRecords.ChangeRecord.JobEnded | packages/daemon/src/daemon/change-record.ts:139-157 | Takes the edits up to the window's start, starts the subject afresh, charges the job with what no report it held names, or counts everything everywhere |
| ChangeRecords.ChangeRecord.ReportEdits | packages/daemon/src/daemon/change-record.ts:119-128 | The keys become edits for every subject, and are held by each running job and each that begins before the read resolves |
| ChangeRecords.ChangeRecord.Observe | packages/daemon/src/daemon/change-record.ts:130-137 | Digest differences since the last reading are edits for every subject |
| ChangeRecords.ChangeRecord.TakeInterval | packages/daemon/src/daemon/change-record.ts:163-177 | An unreadable reading at either end counts everything everywhere, otherwise exactly the differing paths |
| ChangeTraces.NoChangeLost | packages/daemon/src/daemon/change-record.ts:85-182 | Over every order of begin, end, throw, reading and report, each path whose digest differs since the reading the subject counts from is among its job changes or edits, unless everywhere |
| ChangeTraces.Telescopes | packages/daemon/src/daemon/round-selection.ts:140-148 | A path differing across two intervals differs across one of them |
| ChangeTraces.RunningHoldsReports | packages/daemon/src/daemon/change-record.ts:99-128 | What is kept for a running job is exactly the keys of reports made while it ran or still unread when it began |
| ChangeTraces.UnreadIsOpen | packages/daemon/src/daemon/change-record.ts:119-128 | A report is unread exactly from its making until its read resolves |
| ChangeTraces.ChargesAreUnreported | packages/daemon/src/daemon/change-record.ts:99-157 | Every charge to a job is of a path its own window changed while it held no report of it, not reported since |
| RunHistories.CollectShared | packages/daemon/src/daemon/run-history.ts:339-346 | The shared paths are exactly those in both maps, each with the jobs of both |
| RunTraces.NextCountIs | packages/daemon/src/daemon/run-history.ts:271-287 | The next count goes on or starts only at a due time that jobs alone caused, after a run that qualified; every other due time counts nothing |
| RunHistories.RunHistory.Decide | packages/daemon/src/daemon/run-history.ts:197-211 | Releases first at an edit, then decides the count and holds at the bound; no other workspace moves |
| RunHistories.RunHistory.Began | packages/daemon/src/daemon/run-history.ts:213-232 | Begun, a run counts as having stored nothing until it reports, at the count decided for it |
| RunHistories.RunHistory.RunEnded | packages/daemon/src/daemon/run-history.ts:246-269 | Owed once more only when its inputs changed at an unmoved revision and it was not itself that rerun |
| RunHistories.RunHistory.RunNotBegun | packages/daemon/src/daemon/run-history.ts:237-241 | A run that never began leaves the run before it as the last one |
| RunTraces.HeldAfterThree | packages/daemon/src/daemon/run-history.ts:194-211 | A hold names three successive self-caused due times, each after a qualifying run, and exactly the paths all three changed |
| RunTraces.HeldExactly | packages/daemon/src/daemon/run-history.ts:194-211 | An unheld workspace is held at a due time if and only if it is the third of three successive ones changing a common path, with the count started at the first |
| RecordedRuns.ThreeInARowNotHeld | packages/daemon/src/daemon/run-history.ts:328-346 | Four runs whose windows list `a`, both, `b` and `b`: what the change record then holds makes three successive due times that all change `b`, and none holds |
| RunTraces.UninterruptibleBeforeHold | packages/daemon/src/daemon/scheduler.ts:465-491 | The last run begun before a hold was begun as one no change may interrupt |
| RecordedRuns.HeldAfterThreeRuns | packages/daemon/src/daemon/run-history.ts:187-244 | A workspace only its own jobs change and whose every run's window lists one input begins at most three runs, whatever other jobs, readings and reports the change record is told between; it is held exactly at the plan after the third |
| RecordedRuns.StaysByItself | packages/daemon/src/daemon/change-record.ts:85-182 | After the workspace's first run and any further events outside its inputs, the record holds no edit inside them, and the path its runs change among the jobs' changes |
| RecordedRuns.PlanFindsItself | packages/daemon/src/daemon/run-history.ts:271-287 | Such a record makes the next due time self-caused, by that path |
| RunTraces.PlanningAgainKeeps | packages/daemon/src/daemon/run-history.ts:197-211 | Planning again over the same changes decides nothing new |
| RunTraces.RaisedExactly | packages/daemon/src/daemon/run-history.ts:197-346 | Planning again without a run between raises the count exactly when the first plan holds nothing, the last run qualified, jobs alone caused the second due time, and they did not cause the first or its changes shared no path with the start count where the second's share one |
| RunTraces.ReleaseNeverReholds | packages/daemon/src/daemon/run-history.ts:197-211 | A release never holds again in the same decision |
| DiscoveryHistories.DiscoveryHistory.Decide | packages/daemon/src/daemon/discovery-history.ts:135-148 | Releases when edited or none is in effect, otherwise counts and holds; a held discovery owes no retry and is held by its latest hold |
| DiscoveryHistories.DiscoveryHistory.Began | packages/daemon/src/daemon/discovery-history.ts:188-208 | Beginning spends the retry and the once-more owed |
| DiscoveryHistories.DiscoveryHistory.Ended | packages/daemon/src/daemon/discovery-history.ts:216-245 | Owed once more only after a stored discovery changed at its unmoved revision that was not itself the once-more |
| DiscoveryHistories.DiscoveryHistory.NotBegun | packages/daemon/src/daemon/discovery-history.ts:205-209 | A discovery that never began leaves the record as it was, a retry kept |
| DiscoveryHistories.HoldsOnlyByJobs | packages/daemon/src/daemon/discovery-history.ts:135-275 | A new hold follows a stored, unedited, outdated discovery and names only paths jobs changed; a held one is never due; only a release ends a hold |
| DueQueues.QueueHolds | packages/daemon/src/daemon/due-workspaces.ts:138-144 | The queue holds each due workspace exactly as often as it is due |
| DueQueues.QueueOrders | packages/daemon/src/daemon/due-workspaces.ts:128-144 | No workspace runs before one of an earlier group |
| DueQueues.InGroupFirst | packages/daemon/src/daemon/due-workspaces.ts:138-144 | The first of a group in the queue is the first due workspace of that group |
| Schedulers.Scheduler.Plan | packages/daemon/src/daemon/scheduler.ts:284-314 | The discovery first, then the first of the queue of workspaces due, not held and not run already; nothing is decided when the revision moved |
| Schedulers.Scheduler.ArmRetries | packages/daemon/src/daemon/scheduler.ts:324-359 | At most once per periodic reconciliation, exactly what failed, crashed or stored nothing while due, none of it held |
| Schedulers.Scheduler.Due | packages/daemon/src/daemon/scheduler.ts:390-414 | Exactly the workspaces with a reason that their counts do not hold and that did not run already, in order; a held one's retry goes |
| Schedulers.Scheduler.EndRun | packages/daemon/src/daemon/scheduler.ts:465-491 | A refused run keeps its attempt, one that never began restores the run before it and its retry |
| Schedulers.Scheduler.EndDiscovery | packages/daemon/src/daemon/scheduler.ts:448-463 | A discovery that never began restores the record, one that threw counts as having stored nothing |
| Quiescence.DiscoveryShrinks | packages/daemon/src/daemon/discovery-history.ts:162-245 | A discovery that is due leaves less weight at its revision, however it ends |
| Quiescence.RunShrinks | packages/daemon/src/daemon/run-history.ts:131-143 | A run of a workspace not run already leaves less weight at its revision, however it ends |
| Quiescence.BoundedJobs | packages/daemon/src/daemon/scheduler.ts:192-219 | At one revision discoveries and runs of a workspace never exceed the weight they started with, plus two for every periodic reconciliation |
| Quiescence.AtMostTwoEach | packages/daemon/src/daemon/scheduler.ts:284-314 | Without a periodic retry, at most two discoveries and at most two runs per workspace at one revision |
| Quiescence.TwoDiscoveriesHappen | packages/daemon/src/daemon/discovery-history.ts:216-245 | The bound of two is met: a discovery whose inputs changed at its unmoved revision is made once more there |
| Quiescence.ComesToIdle | packages/daemon/src/daemon/scheduler.ts:192-219 | With lists and definitions fixed, the jobs begun at one revision are bounded by an explicit measure each of them shrinks |
| Quiescence.NothingLeftIdles | packages/daemon/src/daemon/scheduler.ts:284-314 | With nothing left of that measure a round that arms nothing plans idle, begins no job, and leaves nothing |
| Quiescence.StaysIdle | packages/daemon/src/daemon/scheduler.ts:192-219 | From then on every plan at the revision is idle, while nothing is armed |
| FalsificationPlans.FalsificationPlan.Next | packages/daemon/src/daemon/falsification-plan.ts:91-118 | The job takes, in the order of the comparison and equal ones as listed, the takeable definitions of the workspace of the very first, all of them or as many as the bound, those left out behind; none only when nothing may be taken |
| FalsificationPlans.FalsificationPlan.RanToEnd | packages/daemon/src/daemon/falsification-plan.ts:131-142 | Each definition of the job waits at the revision with the reason it was left for |
| FalsificationPlans.FalsificationPlan.EndedByBound | packages/daemon/src/daemon/falsification-plan.ts:145-148 | Only the definition running waits, taken last from then on |
| FalsificationPlans.FalsificationPlan.EndedByChange | packages/daemon/src/daemon/falsification-plan.ts:154-174 | Only the running definition is marked, and waits only at a second change running |
| FalsificationPlans.ComparesTotally | packages/daemon/src/defects/defect-standings.ts:190-211 | The order the plan sorts by is a total preorder |
| FalsificationPlans.SortedStably | packages/daemon/src/daemon/falsification-plan.ts:91-118 | Sorting keeps the candidates, puts them in order, and leaves those that compare equal as they were listed |
| PlanTurns.TurnShrinks | packages/daemon/src/daemon/falsification-plan.ts:122-148 | Each job at an unmoved revision strictly shrinks what may be taken, however it ends |
| PlanTurns.LooksEnd | packages/daemon/src/daemon/falsification-plan.ts:91-174 | At one revision no more jobs are taken than definitions may be |
| PlanTurns.RanIsNeverOfferedAgain | packages/daemon/src/daemon/falsification-plan.ts:131-222 | No definition of a job that ran to its end is offered again at its revision while its digest stays in the standings |
| PlanTurns.ChangeLeavesOnlyTheRunning | packages/daemon/src/daemon/falsification-plan.ts:154-174 | An input change touches no definition but the one running, and no other streak goes on |
| Verdicts.DetectedExactly | packages/daemon/src/falsify/verdict.ts:248-333 | Detected exactly when both baselines passed untroubled, both runs reject the mutation, the next run was clean and the job closed clean |
| Verdicts.SurvivedExactly | packages/daemon/src/falsify/verdict.ts:248-355 | Survived exactly when both baselines passed untroubled and the test passed in a clean run that reached the site |
| Verdicts.ReadsWouldDetect | packages/daemon/src/falsify/verdict.ts:335-473 | A run reads as a detection exactly when, every hook passed and the site reached, it failed once by assertions alone with no unhandled error |
| RunRecords.CleanForExactly | packages/daemon/src/falsify/run-facts.ts:164-185 | A baseline counts as clean for a test exactly when the test passed in a clean run and no unhandled error names its module or none at all |
| FalsificationJobs.FalsificationRuns.RunAll | packages/daemon/src/falsify/falsify-workspace.ts:213-249 | Whatever each run's end, the job's record accounts for exactly the runs asked for, in order |
| FalsificationJobs.FalsificationRuns.RunExperiment | packages/daemon/src/falsify/falsify-workspace.ts:252-275 | A confirming run exactly when the first run alone would be a detection, at once after it |
| FalsificationJobs.FalsificationRuns.ExperimentsAfter | packages/daemon/src/falsify/falsify-workspace.ts:348-364 | Each planned experiment's record is one its runs allow, and no run follows an interrupted one |
| FalsificationJobs.FalsificationRuns.PlanAll | packages/daemon/src/falsify/falsify-workspace.ts:294-325 | Planned in order are exactly the experiments not decided before any run |
| FalsificationRunTraces.OneRecordEach | packages/daemon/src/falsify/falsify-workspace.ts:213-249 | One record per experiment in the order given, so records and experiments always pair |
| FalsificationRunTraces.AbortLeavesTheRest | packages/daemon/src/falsify/falsify-workspace.ts:347-364 | After the first interrupted experiment every planned one is recorded interrupted |
| FalsificationRunTraces.OnlyTheLastIsInterrupted | packages/daemon/src/falsify/falsify-workspace.ts:213-249 | Only the last run asked for can have been interrupted, and was exactly when the job reads interrupted |
| FalsificationRunTraces.RunningIsTheInterrupted | packages/daemon/src/daemon/falsification.ts:540-554 | The running definition is the one whose run was interrupted, and none when a baseline was |
| FalsificationRunTraces.RanInLog | packages/daemon/src/falsify/run-facts.ts:112-133 | An experiment's record holds its own first and confirming run, and the next run read is the first started after both |
| FalsificationRunTraces.NextRunExists | packages/daemon/src/falsify/run-facts.ts:236-265 | In an uninterrupted job with a recorded restored baseline every experiment that ran has a next run |
| FalsificationRunTraces.NoVerdictWhenInterrupted | packages/daemon/src/falsify/verdict.ts:248-263 | No experiment that ran gets a verdict in an interrupted job |
| FalsificationRunTraces.DetectedByRuns | packages/daemon/src/falsify/falsify-workspace.ts:118-140 | End to end, detected exactly by the job's runs in order: clean baseline, two rejecting runs at once, a clean next run, clean restored baseline last, clean close |
| Falsifications.Falsification.Settle | packages/daemon/src/daemon/falsification.ts:353-409 | Nothing stored or marked at a stop, nothing stored at a change, and evidence written only for a window that vouches and a reply with a verdict |
| Falsifications.RunningIsOfJob | packages/daemon/src/daemon/falsification.ts:376-390 | The definition the time bound leaves is one of the job's own |
| Falsifications.BoundStoresNoRun | packages/daemon/src/daemon/falsification.ts:376-390 | A job its time bound ended stores no verdict of an experiment that ran |
| Falsifications.StoredDetections | packages/daemon/src/daemon/falsification.ts:353-409 | A write holds a verdict of detection for exactly the definitions the runs of the job it came from detect, over a window that vouches, at the revision the job was sent at and not stopped |
| Falsifications.SettleShrinks | packages/daemon/src/daemon/falsification.ts:348-374 | Settling at an unmoved revision strictly shrinks what may be taken, stored or not |
| RunJudgments.PlaceFor | packages/daemon/src/daemon/run-judgment.ts:143-172 | Inside are exactly the listed paths and those some held placement does not put outside, in order; narrowed only those a narrowed build places |
| RunJudgments.KeptExactly | packages/daemon/src/daemon/run-judgment.ts:105-130 | Kept exactly when started under a fingerprint, no changed path lies inside, no cause is recorded and the end has the start's fingerprint |
| RunJudgments.StaysChangedInside | packages/daemon/src/daemon/run-judgment.ts:106-172 | Once changed inside, always changed inside, as the window and the held placements grow |
| RunJudgments.OrderDecidesNothing | packages/daemon/src/daemon/run-judgment.ts:448-457 | Holding a placement once or often, in any order, judges alike |
| RunJudgments.RunWatch.Hold | packages/daemon/src/daemon/run-judgment.ts:448-457 | Each placement is held once, and what interrupted the run stays inside |
| RunJudgments.RunWatch.InterruptIfWorthless | packages/daemon/src/daemon/run-judgment.ts:459-472 | Interrupts once, only before the run returned, by paths a narrowed build places inside |
| RunJudgments.RunWatch.Look | packages/daemon/src/daemon/run-judgment.ts:352-358 | A watch that throws widens everything and ends; what interrupted stays |
| RunJudgments.RunWatch.Judge | packages/daemon/src/daemon/run-judgment.ts:384-398 | An interrupted run is judged changed inside at every later end view, also when placing throws; otherwise as every placement offered judges |
| ProbeSteps.EnclosingPath | packages/daemon/src/falsify/probe-step.ts:128-155 | Descends one child at a time to the deepest enclosing node |
| ProbeSteps.PathHoldsAll | packages/daemon/src/falsify/probe-step.ts:127-166 | Every function with a body that encloses the change is on that path, also where children share a span |
| ProbeSteps.OneEncloses | packages/daemon/src/falsify/probe-step.ts:127-166 | Of a node's children only the one that holds a function with a body encloses a span the function encloses, so one descent misses none |
| ProbeSteps.PlainMayOverlap | packages/daemon/src/falsify/probe-step.ts:127-166 | Where nothing is a step siblings may overlap at will and the tree is still one the parser may give |
| ProbeSteps.ListPointInside | packages/daemon/src/falsify/probe-step.ts:265-299 | A probe in a list stands between its owner's braces and behind every leading directive |
| ProbeSteps.BodyHeadInside | packages/daemon/src/falsify/probe-step.ts:237-250 | A function with a body always has a step at its head, behind its first character and within its span |
| ProbeSteps.ProbeStandsInside | packages/daemon/src/falsify/probe-step.ts:93-101 | A found step's insertions are in text order within the program, and for every function with a body that holds the change behind its first character and no later than its end |
| ProbeSteps.WithProbe | packages/daemon/src/falsify/probe-step.ts:104-112 | Writes each insertion at its offset and keeps every character between |
| ProbeSteps.ErasingGivesBack | packages/daemon/src/falsify/probe-step.ts:104-112 | Taking the insertions out again gives back the text |
| ProbeSteps.ProbeBreaksNoLine | packages/daemon/src/falsify/reach-probe.ts:76-80 | No insertion holds a line break |
| ReachProbes.ChangeOf | packages/daemon/src/falsify/reach-probe.ts:142-161 | Splits both texts into the longest shared prefix, the change, and the longest suffix of what remains |
| ReachProbes.OneSplit | packages/daemon/src/falsify/reach-probe.ts:142-161 | No other change splits them so |
| ReachProbes.SiteReadsAlike | packages/daemon/src/falsify/reach-probe.ts:193-198 | The site reads in the unmutated text as the probe's place does in the mutated one |
| ReachProbes.PositionsTellApart | packages/daemon/src/falsify/reach-probe.ts:207-214 | A line and column name one offset |
| ReachProbes.MutateWithProbe | packages/daemon/src/falsify/reach-probe.ts:80-121 | A probed text parses, gives back the mutated text without its probe, has it inside every function that encloses the written text and the start of the step that held the removed one, and reports the probe's own place; otherwise the anchor count, the parse failure, or the change's start where no step holds it or its probe is rejected |
| AnchorMatches.MatchReads | packages/daemon/src/falsify/anchor-match.ts:76-81 | A pattern with no carriage return matches exactly the texts that read as it with LF line breaks |
| AnchorMatches.FoundExactlyOnce | packages/daemon/src/falsify/anchor-match.ts:39-56 | The anchor is found, from here to there, exactly when it matches so, no match starts before it and none from its end on; otherwise it occurs a number of times other than once |
| AnchorMatches.ReplacesReading | packages/daemon/src/falsify/anchor-match.ts:59-74 | What is replaced reads as the anchor and what is written as the replacement, whatever the endings |
| LineDecoders.LineDecoder.Push | packages/daemon/src/daemon/protocol.ts:285-297 | Adds exactly what the chunk adds to the decoding of the whole stream, holding no more than the limit |
| LineDecoders.DecodeChunks | packages/daemon/src/daemon/protocol.ts:280-327 | The lines are those of the whole stream however it is cut, one mark per over-long line |
| LineDecoders.DecodesWhatIsEncoded | packages/daemon/src/daemon/protocol.ts:329-331 | Messages written one to a line are decoded as they were written |
| ServedConnections.ServedConnection.Flush | packages/daemon/src/daemon/server.ts:256-268 | What is written stays a prefix of the answers in line order, the next turn left is pending |
| ServedConnections.ServedConnection.Queue | packages/daemon/src/daemon/server.ts:205-248 | One turn per line, its answer written at once when nothing before it is pending, the connection closed past the bound with its work aborted |
| ServedConnections.ServedConnection.Settle | packages/daemon/src/daemon/server.ts:249-254 | A late answer decides only a line still pending |
| ServedConnections.ServedConnection.BeginStop | packages/daemon/src/daemon/server.ts:219-227 | Every pending line is answered with the stopping error, its work aborted, and nothing stays pending |
| ServedConnections.ServedConnection.Drop | packages/daemon/src/daemon/server.ts:235-241 | Every pending work is aborted and nothing more is written |
| ServedConnections.ServedConnection.Answer | packages/daemon/src/daemon/server.ts:301-348 | A stop's acknowledgement is written at once as the last answer; a mismatched connection answers stops alone; any other line gets one turn |
| CarriedVariables.FollowReferences | packages/daemon/src/inputs/carried-variables.ts:138-162 | Ends, and names exactly the entry-named members of the least set closed under references, each with where a reference that reads it stands; every variable exactly when a stray `$` is in a listed text or a reached value, and then where one stands |
| CarriedVariables.ScanFiles | packages/daemon/src/inputs/carried-variables.ts:228-242 | Every reference of the listed texts and no other name, or the first file whose text has a stray `$` |
| CarriedVariables.WithPrefixes | packages/daemon/src/inputs/carried-variables.ts:164-179 | Adds exactly the set, entry-named variables an env prefix begins |
| CarriedVariables.CarriedTo | packages/daemon/src/inputs/carried-variables.ts:108-118 | A workspace carries exactly what is reachable or prefixed and named by an entry, the reference kept as the reason where there is one, or everything with where a stray `$` stands |
| CarriedVariables.CarriedUnion | packages/daemon/src/inputs/carried-variables.ts:215-226 | Everything, as the first workspace that carries everything does, otherwise exactly what any carries, with the first one's reason |
| StartLocks.AtMostOneHolds | packages/daemon/src/daemon/runtime-directory.ts:59-135 | At every interleaving of their file steps at most one of two starts believes it holds the lock |
| StartLocks.ExactlyOneWins | packages/daemon/src/daemon/runtime-directory.ts:59-125 | When both have ended their race and neither released, exactly one holds, and the lock names it |
| StartLocks.ReleaseCanLeaveItsLock | packages/daemon/src/daemon/runtime-directory.ts:106-135 | One run in which a start releases while the other has its lock aside, and both are done with the lock naming the one that released |
| StartLocks.StrayExactly | packages/daemon/src/daemon/runtime-directory.ts:59-135 | After any turns the lock names a running start that does not hold it exactly when at one of them a start put back the lock of the other, which had released while it was aside |
| StartLocks.OneStepStrays | packages/daemon/src/daemon/runtime-directory.ts:106-135 | One file step comes to such a lock exactly by putting one back, and no step ends it |
| StartLocks.NoLeftLockNoStray | packages/daemon/src/daemon/runtime-directory.ts:59-135 | Without a dead process's lock at the start none is moved aside, and the lock never names one that does not hold it |
| Waiting.ChangedSince | packages/daemon/src/daemon/waits.ts:382-417 | Exactly the differing inputs of every workspace covering at either revision, or every differing path when the bound coverage is unknown |
| Waiting.Waits.JudgeOne | packages/daemon/src/daemon/waits.ts:238-282 | Binds once, supersedes by exactly what changed, and settles at a later revision only when no covered input differs, or nothing at all when the bound coverage was never known |
| Waiting.Waits.TakeCoverage | packages/daemon/src/daemon/waits.ts:250-262 | The bound coverage is always of the bound revision, fixed once a later revision is judged |
| Waiting.Waits.Settle | packages/daemon/src/daemon/waits.ts:344-355 | A wait gets one outcome and is pending exactly until then |
| Waiting.Waits.Judge | packages/daemon/src/daemon/waits.ts:222-235 | No outcome and no bound revision ever changes; a reading that fails fails every wait it was for |
| TestIdentities.IdentifyModuleTests | packages/core/src/test-identity.ts:19-35 | Each test's occurrence is the number of tests before it in its module with its name |
| TestIdentities.IdentitiesAreDistinct | packages/core/src/test-identity.ts:37-46 | No two tests of a module share an identity |
| TestIdentities.DuplicatesShareNames | packages/core/src/test-identity.ts:31-32 | A test is marked a duplicate exactly when another has its name |

## Left out

- Text: log entries, reasons cut to a length, the wording of answers and the command line. They hold no hard property. A workspace's mark keeps its reason uncut, without the sentence that says what ends the wait.
- Files, sockets, child processes, timers and the parser: their results are parameters or arbitrary, with the contract the call site states. A timeout is a step that may come.
- Hashes and JSON keys are injective tokens; a regular expression's scan of a text for references is an uninterpreted function.
- The order of a JavaScript map or set matters in none of the results; where a loop goes over one, the model takes its members in any order.
- Cursors read a sequence of any length exactly; the source's numbers are exact only to 2^53, far beyond the sequences issued.
- How a build places paths is a parameter: path by path, and a set of paths may throw.
- Windows list every path their job changed when they carry no cause; this is a premise of `ChangeTraces.NoChangeLost`, not proved of the tracker.
- FalsificationPlans.FalsificationPlan.Next: the listing of what was left waiting (`entries`) and its texts.
- FalsificationJobs.FalsificationRuns.Run: the stale-module guard, the file last mutated and the set of modules a baseline runs; each run may end in any way. An experiment is told apart by its place, so the same object given twice is not modelled.
- Schedulers.Scheduler.Plan: the quiet window, the round's explanation and the idle wait; a round's selection is what it named directly.
- Quiescence: waiting out the once-more delay begins no job and is not counted. A canary job either reads its install or makes the workspace wait.
- ServedConnections.ServedConnection.Answer: which query answers at once and which late, and the checks of its fields. The connection ends no more than once because a socket that has ended is never writable again.
- ProbeSteps.WellFormed: what the parser's trees keep is a premise: children lie within their parents or apart from them, a function with a body overlaps no child but the one that holds it, lists are ordered, and a function's body stands behind its first character. A class's decorators written before its `export` lie outside the statement, so a function in them does not count as one the statement holds.
- AnchorMatches.MatchReads: a carriage return that stands before no line feed is outside its statement, as is a pattern holding one.
- StartLocks.AtMostOneHolds: two contenders, as the source claims; a race of three or more is not modelled, nor a process id used again.
- Counting the environment into a digest, the workspace schedule's records, the dependency builds' rounds, the crawl of links, selection and narrowing, and the store. They would add mostly bookkeeping members.
