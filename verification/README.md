# Captain: verified models of the panel's state machines

Captain is a panel for a fleet of proxy servers. This project models the parts of it that
carry invariants over whole runs or over whole graphs, and proves them in Dafny 4.11.
`dafny verify dfyconfig.toml` checks everything.

Each part has a specification on values (a state machine or a set of recursive functions),
lemmas about every run or every input of it, and, where the panel changes things in place,
methods with loops or a class whose methods are proved to do what the specification does.

| files | what they model |
|---|---|
| `DiagnosticsModel`, `-Safety`, `-Budget`, `-Takeover`, `-Progress`, `-Barriers`, `-Viewers`, `-Admission`, `-Ring`, `-Broker` | the live-diagnostics broker: process takeover by challenge and echo, viewer leases under several budgets, tombstones, the sample ring, timers |
| `RuntimeStatus`, `RuntimeConfirmation`, `RuntimeLine`, `RuntimeVerdict`, `RuntimeWalk`, `RuntimeTopology` | the service-status evaluator: the four-valued algebra, the table that confirms failures, the memoised walk over a relay line |
| `ForwardPathModel`, `-Safety`, `-Acceptance`, `-Contents`, `-Store` | versioned path composition: immutable revisions, pinned sources, flattened hops |
| `ClientChainStore`, `ClientChainView` | client proxy chains: validation on write, the catalogue and the client files on read |
| `DynamicLimit` | the sliding-window rate limiter |
| `MetricHistory`, `MetricValues` | down-sampling of metric history |
| `AgentHttps` | replacement of the agent HTTPS listener under concurrency |
| `ArtifactCache` | the bounded artifact cache and its single flights |
| `DnsHealth` | the sustained-failure window of DNS checks |
| `Referrals`, `ReferralRuns`, `ReferralRewards` | the referral graph, invitations statement by statement, and the rewards of an order |
| `Collections` | an option type and a choice from a set |

Conventions. Times are whole numbers (milliseconds in the broker, nanoseconds or seconds
elsewhere as in the panel). Random identifiers are drawn from a counter, so that they are never
repeated and "drawn later" is "greater"; the identity of an object in memory is such a draw
too. A critical section under a lock, and a database transaction, is one step; a statement
outside any transaction is a step of its own. Clocks, authorization callbacks, network results
and what the rest of the database holds are parameters. Floating-point numbers are reals.
Digests are taken to be injective and are kept as the values they are taken of.

Three promises do not hold of the code as it is written, and are stated with what holds instead:

- The comment on `SetInvitedBy` says that an inviter whose chain leads back to the user is
  refused. The walk looks only 64 levels up: `ReferralRuns.LongCycleIsPossible` is a run that
  closes a cycle of sixty-six, and `Referrals.CycleExactlyBeyondTheWalk` says exactly when a call
  by itself does.
- Nor does the comment hold of calls at the same time, since walk and update share no transaction:
  `ReferralRuns.MutualInvitation` is a run in which two users become each other's inviter.
  `ReferralRuns.RecordClosesCycle` says exactly when a write closes a short cycle,
  `ReferralRuns.OverlapIsNeeded` that it takes an overlap, and
  `ReferralRuns.SerialRunsHaveNoShortCycle` that without overlaps there is none. What the rule is
  for, that nobody is rewarded for their own purchase, holds on any graph, by the reward walk
  itself (`ReferralRewards.Ledger.PayRewards`, `ReferralRewards.RewardsReachOthers`).
- The last slot of a metric series is meant to take in only a bucket at the end of the window. In
  a window that ends at a smaller fraction of a second than it begins at, it may take in the
  bucket one second earlier (`MetricHistory.ClampInsideFractionalWindow`);
  `MetricHistory.ClampOnlyAtEnd` says exactly for which windows. No data is lost either way.

## Model

| member | source | states |
|---|---|---|
| DiagnosticsSafety.RunKeepsRecords | internal/service/diagnostics.go:98-468 | In every run, every record has at most 120 samples, all of its current session and epoch, strictly increasing in sequence and time and present only while running; at most 8 candidates and 64 retired sessions; the current session is neither; all identifiers were drawn before. |
| DiagnosticsSafety.StepKeepsRecords | internal/service/diagnostics.go:189-468 | Each operation, from any state that satisfies it, keeps that record invariant. |
| DiagnosticsSafety.TakeOverSessions | internal/service/diagnostics.go:201-215 | Accepting an echo keeps the session bounds although the accepting branch tests none: a candidate bound to the current head leaves room for one more retired session. |
| DiagnosticsSafety.AppendOk | internal/service/diagnostics.go:432-468 | Accepting a sample that is newer in both orders keeps the ring bounded, ordered and of one epoch, and dates its freshness by the older of sampling and arrival. |
| DiagnosticsTakeover.StepKind | internal/service/diagnostics.go:98-468 | Each step leaves a record as it was, makes a new one, issues one challenge on it, or installs one session that echoed its challenge; nothing else can happen to head, session and candidates. |
| DiagnosticsTakeover.RunProvenance | internal/service/diagnostics.go:197-227 | In every run each pending challenge was issued earlier to that session, on that record, under the head it is bound to. |
| DiagnosticsTakeover.TakeoverNeedsEcho | internal/service/diagnostics.go:197-227 | In every run a session becomes current only by echoing a challenge that was given to that same session, node and identity under the head still in force. |
| DiagnosticsTakeover.LaterHead | internal/service/diagnostics.go:200-215 | Between two points of a run a head either still stands or was replaced by one drawn later. |
| DiagnosticsTakeover.OldChallengesAreDead | internal/service/diagnostics.go:202-223 | After any takeover no earlier challenge installs anyone: the challenge behind the next takeover was issued strictly between the two. |
| DiagnosticsTakeover.SessionBounds | internal/service/diagnostics.go:202-223 | In every run at most 64 retired sessions and 8 candidates; current session, candidates and retired sessions are pairwise different. |
| DiagnosticsProgress.EchoTakesOver | internal/service/diagnostics.go:200-215 | The converse, in every run: a session that was issued a challenge and echoes it within a minute of its first issue, while its record stands and the head it is bound to is still in force, becomes the current session, whichever was current before, and that one is retired for ten minutes. |
| DiagnosticsProgress.ChallengeLasts | internal/service/diagnostics.go:98-125 | In every run a challenge stays pending while its record, its head and its minute last. |
| DiagnosticsProgress.HandoverHappens | internal/service/diagnostics.go:189-239 | A run in which a running process is displaced by one that answers its challenge. |
| DiagnosticsAdmission.PollAnswers | internal/service/diagnostics.go:189-239 | Every answer to a poll on a standing record, case by case and by the record as it was before: retired, current, right echo, pending, new, refused at eight pending or sixty-four retired. |
| DiagnosticsAdmission.PollCommandLasts | internal/service/diagnostics.go:228-238 | The current session is told to stand by exactly when no valid viewer is left, and else to sample until the last valid lease ends, at most fifteen seconds. |
| DiagnosticsAdmission.NewRecordExactly | internal/service/diagnostics.go:126-146 | A node without a standing record gets a new, empty one if and only if fewer than 1024 other records outlive the pruning. |
| DiagnosticsBarriers.StepOnward | internal/service/diagnostics.go:98-468 | While a record lives, each step keeps every retirement that is not over, moves its generation only upward, and retires whatever session a poll displaces. |
| DiagnosticsBarriers.GenerationsOrderCommands | internal/service/diagnostics.go:167-183 | In every run, over the life of a record, generations never fall and two states of one generation have the same epoch, head and session. |
| DiagnosticsBarriers.DisplacedStaysOut | internal/service/diagnostics.go:197-215 | In every run a session displaced by a takeover is not current again for ten minutes, whatever is sent meanwhile, as long as its record lives. |
| DiagnosticsBarriers.DisplacedIsTurnedAway | internal/service/diagnostics.go:197-199 | In every run, in those ten minutes, each poll of the displaced session is answered with a command of no length and no challenge. |
| DiagnosticsBarriers.ReleasedStaysDead | internal/service/diagnostics.go:255-264 | In every run, for five minutes after an accepted release, no request for that lease by that owner is granted, late ones included. |
| DiagnosticsBudget.RunKeepsBudget | internal/service/diagnostics.go:265-286 | In every run there are at most 8 viewers per node, 32 in all, 4 per principal and 8 watched nodes, and tombstones and viewers together number at most 512. |
| DiagnosticsBudget.LeaseKeepsBudget | internal/service/diagnostics.go:244-313 | Granting, renewing or refusing a lease keeps all five budgets. |
| DiagnosticsBudget.ReleaseKeepsBudget | internal/service/diagnostics.go:314-345 | A release, known or unknown, keeps all five budgets. |
| DiagnosticsBudget.OwnReleaseNeverRefused | internal/service/diagnostics.go:321-344 | In every run, however many unknown releases came before, the release of any lease that the caller holds is accepted, removes the viewer and leaves its tombstone within 512. |
| DiagnosticsAdmission.LeaseGrantedExactly | internal/service/diagnostics.go:244-286 | A lease is granted if and only if the identifier is well formed, the record stands with a session that polled within 70 s, no tombstone bars it, and it is either held by this owner or new, no renewal, with fewer than 480 tombstones, 8 viewers here, 32 in all, 4 of the principal and, if nobody watches here, 8 watched nodes, counted on the records before the call. |
| DiagnosticsAdmission.LeaseGives | internal/service/diagnostics.go:284-313 | A granted lease runs thirty seconds from now for its owner, unless denied at once; a grant less than five seconds old is repeated as it is. |
| DiagnosticsAdmission.ReleaseAcceptedExactly | internal/service/diagnostics.go:314-345 | A release is accepted if and only if it is the holder's own, a repetition, or among fewer than 480 others; the lease is then gone and barred for five minutes. |
| DiagnosticsAdmission.TimerEndsExactly | internal/service/diagnostics.go:295-309 | A timer ends its viewer if and only if record, viewer and deadline are those it was set for. |
| DiagnosticsViewers.StepViewers | internal/service/diagnostics.go:98-468 | Each step carries a viewer over unchanged, renews it by at least five seconds, or admits it for the first time; nothing else changes a viewer. |
| DiagnosticsViewers.TracesBack | internal/service/diagnostics.go:244-313 | In every run a viewer was there, in the same record and with an earlier or equal deadline, at every step since it was admitted. |
| DiagnosticsViewers.RenewalOutlivesTimers | internal/service/diagnostics.go:287-309 | In every run a timer set for a viewer does nothing after any later renewal of that viewer, whenever it fires and whatever the clock does. |
| DiagnosticsRing.NewerIsSuffix | internal/service/diagnostics.go:369-385 | The unseen samples of an ordered ring are one suffix of it, split exactly at the client's cursor. |
| DiagnosticsRing.SnapshotShows | internal/service/diagnostics.go:346-387 | In every run a snapshot shows an unexpired viewer of that owner exactly the unseen suffix of the current epoch; "live" implies the newest sample was taken less than three seconds ago, and, with a clock not behind the last arrival, is equivalent to three seconds not having passed since the older of sampling and arrival. |
| DiagnosticsRing.SamplesWereWatched | internal/service/diagnostics.go:432-468 | In every run every sample in a ring was accepted, for that node, by some earlier step while an unexpired viewer was watching. |
| DiagnosticsAdmission.SampleAcceptedExactly | internal/service/diagnostics.go:411-468 | A sample is accepted if and only if somebody watches, it is of the session and epoch in force, plausible, newer than the last, and that came at least half a second ago; it is then the last of the ring, which keeps the last 120. |
| DiagnosticsAdmission.SnapshotAnswersExactly | internal/service/diagnostics.go:346-387 | A snapshot is refused exactly to somebody else, blank exactly without a running lease on a standing record, and shown exactly to the holder. |
| DiagnosticsRing.ViewShows | internal/service/diagnostics.go:365-387 | What is shown of a ring: the unseen suffix, its status, epoch, latest sequence and remaining freshness. |
| DiagnosticsAdmission.Refreshed | internal/service/diagnostics.go:147-183 | Which viewers, ring, epoch and generation are in force once sampling is in line with the viewers. |
| DiagnosticsRing.CommandBoundedByLease | internal/service/diagnostics.go:228-238 | A command with time left is for the current session and epoch, lasts at most 15 seconds and ends no later than some unexpired lease. |
| DiagnosticsBroker.Diagnostics.Reset | internal/service/diagnostics.go:89-97 | All records and tombstones go. |
| DiagnosticsBroker.Diagnostics.Prune | internal/service/diagnostics.go:98-125 | The deleting loops remove exactly what has expired and the records nobody watched or polled for five minutes. |
| DiagnosticsBroker.Diagnostics.Node | internal/service/diagnostics.go:126-146 | A record is kept under the same identity, replaced under another, and missing only when 1024 others exist. |
| DiagnosticsBroker.CheckViewers | internal/service/diagnostics.go:147-166 | The loop keeps exactly the viewers that are neither expired nor denied, and its latest deadline is past now exactly when some viewer is left. |
| DiagnosticsBroker.Diagnostics.Poll | internal/service/diagnostics.go:189-239 | The in-place poll does what the specification used by all run theorems does, reply included. |
| DiagnosticsBroker.Diagnostics.CountViewers | internal/service/diagnostics.go:269-286 | The nested counting loops count the viewers of all nodes, of one principal, and the watched nodes as sets. |
| DiagnosticsBroker.Diagnostics.Grant | internal/service/diagnostics.go:244-313 | The in-place lease does what the specification does, all refusals included. |
| DiagnosticsBroker.Diagnostics.Withdraw | internal/service/diagnostics.go:314-345 | The in-place release does what the specification does. |
| DiagnosticsBroker.Diagnostics.OnTimer | internal/service/diagnostics.go:295-309 | A timer removes its viewer only if record, viewer and deadline are still those it was set for. |
| DiagnosticsBroker.Diagnostics.Look | internal/service/diagnostics.go:346-387 | The in-place snapshot, with its copying loop, does what the specification does. |
| DiagnosticsBroker.Diagnostics.Accept | internal/service/diagnostics.go:432-468 | The in-place recording of a sample does what the specification does, every rejection included. |
| RuntimeStatus.ComputeSeries | internal/service/service_status.go:631-651 | The loop yields the worst state, the reason of the first part as bad as it, all evidence, and the oldest observation (of the failed parts alone when down). |
| RuntimeStatus.ComputeAlternatives | internal/service/service_status.go:652-696 | The counting loop yields healthy, degraded, unknown or down as all, some or none of the parts are usable or unknown, dated by the usable parts when usable. |
| RuntimeStatus.WorstIsWorst | internal/service/service_status.go:631-642 | The state of a series is that of its worst part and the reason that of the first such part. |
| RuntimeStatus.EvidenceIsUnion | internal/service/service_status.go:614-630 | Evidence is exactly what some part has. |
| RuntimeStatus.OldestIsLeast | internal/service/service_status.go:624-630 | The date is the least observation of the parts that count. |
| RuntimeLine.PrependSummarizes | internal/service/service_status.go:575-588 | Putting an edge in series with a summary of paths gives the summary of those paths with the edge in front. |
| RuntimeLine.AlternativesSummarize | internal/service/service_status.go:652-696 | The alternatives of several summaries are the summary of all their paths together. |
| RuntimeLine.LineSummarizesPaths | internal/service/service_status.go:517-594 | For every acyclic line the recursive status is the summary of all complete paths enumerated one by one: state, evidence and, when usable, age. |
| RuntimeLine.UdpLineIsNeverUsable | internal/service/service_status.go:579-588 | A datagram line is never shown healthy or degraded past a running listener, whatever probes and landing say. |
| RuntimeVerdict.EdgeVerdict | internal/service/service_status.go:566-612 | By the reported fields and the history alone: an edge is healthy if and only if a TCP probe of that target is reported up and the line is not for datagrams; down if and only if it is reported down by TCP, or by the backend, and an older negative report still stands; otherwise unknown. |
| RuntimeVerdict.EdgeIsAnOp | internal/service/service_status.go:595-612 | An edge enters the history as the negative report or the clearing that its report demands. |
| RuntimeVerdict.LineHealthyExactly | internal/service/service_status.go:517-594 | A line is shown healthy if and only if, by the reports, every listener runs with as many targets as ways on, every probe is up and the landing is healthy. |
| RuntimeVerdict.LineUsableExactly | internal/service/service_status.go:517-594 | A line is shown healthy or degraded if and only if some way through it is open by the reports: every probe on it up and a usable end; with the other two theorems all four states are settled. |
| RuntimeVerdict.LineDownExactly | internal/service/service_status.go:517-594 | A line is shown down if and only if, by reports and history, every way through it is cut: by a node that is down, a confirmed edge, or a landing that is down. |
| RuntimeWalk.EdgeStep | internal/service/service_status.go:575-612 | Judging one edge after others, on the table they changed, gives the status it has on the starting table. |
| RuntimeWalk.LineWalk.JudgeEdge | internal/service/service_status.go:595-612 | An edge changes the table as its own entry demands and is answered as on the starting table. |
| RuntimeWalk.LineWalk.Visit | internal/service/service_status.go:520-588 | The memoised recursion over shared, changing tables answers the recursive status of the starting table, and updates each edge's failure entry exactly once. |
| RuntimeWalk.LineWalk.Evaluate | internal/service/service_status.go:589-594 | The whole walk answers that status, in series with the external part where there is one. |
| RuntimeTopology.LayeredIsRanked | internal/service/service_status.go:502-513 | Every ordinary line whose groups share no listener is acyclic, so the summary theorem applies to it. |
| RuntimeTopology.BuildLayered | internal/service/service_status.go:502-513 | The nested loops build the layered adjacency. |
| RuntimeTopology.LayeredEdges | internal/service/service_status.go:502-513 | An edge is in it if and only if it leads from some group to the next. |
| RuntimeTopology.BuildBranched | internal/store/path_routes.go:614-633 | The loops build a root with one chain per branch. |
| RuntimeTopology.BranchedExactly | internal/store/path_routes.go:614-633 | On distinct listeners the built edges are exactly those from the root into each branch and from each listener of a branch to the next. |
| RuntimeTopology.BranchedIsRanked | internal/store/path_routes.go:614-633 | Every complete-path route with distinct listeners is acyclic. |
| RuntimeConfirmation.TableTellsHistory | internal/service/service_status.go:197-233 | In every run the table has an entry exactly for a streak of negative reports that, told by the reports and clearings alone, has not ended; the entry carries what the streak's first report and the one in force say, and counts two as soon as a second sequence has come. |
| RuntimeConfirmation.ConfirmedByTwoReports | internal/service/service_status.go:197-233 | In every run a component is confirmed down if and only if an older negative report of the same identity began a streak that no recovery, clearing, loss of the node, staleness or setback has ended. |
| RuntimeConfirmation.SameReportNeverEscalates | internal/service/service_status.go:59-66 | Evaluating one report any number of times never turns an unconfirmed failure into a confirmed one. |
| ForwardPathSafety.RevisionInside | internal/store/forward_paths.go:139-244 | A sound revision means the same, hop for hop, in any larger store. |
| ForwardPathSafety.ComposeOk | internal/store/forward_paths.go:139-244 | A composition that succeeds is the full recursive expansion of its steps, within depth, length and distinctness bounds, and adds only captures its steps use. |
| ForwardPathAcceptance.ComposeAcceptsExactly | internal/store/forward_paths.go:139-244 | The step-by-step walk succeeds if and only if the steps are acceptable as a whole, stated without its order: well-formed distinct steps, existing sources that do not lead back and are not too deep, and at most eight distinct, usable servers in all. |
| ForwardPathAcceptance.SaveAcceptsExactly | internal/store/forward_paths.go:245-307 | A save succeeds if and only if the caller saw the current version and one to eight steps are acceptable with distinct hop keys. |
| ForwardPathContents.PinnedExactly | internal/store/forward_paths.go:376-434 | A pin resolves if and only if the line is not barred and the pin is held or the line can be captured; a held pin keeps its hops, a new one takes the one member of every group in order, with the wire backend, and the landing last. |
| ForwardPathContents.SavedHopsInOrder | internal/store/forward_paths.go:139-307 | The hops of a saved path are, step after step, what each step brings: its own server, the hops of the pinned revision, or the pinned line as captured, only the keys renamed. |
| ForwardPathContents.BackendKeptExactly | internal/store/path_transports.go:46-58 | Saving changes nothing of a step but the missing backend of a server's step, which is that of the step it replaces. |
| ForwardPathContents.DeleteExactly | internal/store/forward_paths.go:335-362 | A delete succeeds if and only if the caller saw the version and no step and no route refers to the path; each refusal says which failed. |
| ForwardPathContents.ForgetExactly | internal/store/forward_paths.go:363-372 | A source line may go if and only if no step of any revision refers to it. |
| ForwardPathSafety.SaveOk | internal/store/forward_paths.go:245-307 | A save adds exactly one revision and leaves every stored revision and capture as it was. |
| ForwardPathSafety.DeleteOk | internal/store/forward_paths.go:335-362 | A permitted delete removes one path's revisions, leaves all others as they were and no reference dangling. |
| ForwardPathSafety.CommitsOk | internal/store/forward_paths.go:245-372 | Every transaction keeps the store invariant, all surviving revisions, and never reuses an identifier. |
| ForwardPathSafety.RunInv | internal/store/forward_paths.go:245-372 | The store invariant holds after every run of transactions. |
| ForwardPathSafety.RevisionsAreForever | internal/store/forward_paths.go:245-362 | In every run a revision never changes while its path lives and never returns after the path is deleted. |
| ForwardPathSafety.HopsAreTheExpansion | internal/store/forward_paths.go:139-307 | In every run the stored hops of a revision are the recursive expansion of its steps, then and at every later point at which it exists. |
| ForwardPathSafety.PathsAreSound | internal/store/forward_paths.go:134-307 | In every run no path occurs below itself, nothing dangles, depth is one more than the deepest source and at most 8, at most 8 distinct servers, and no capture is unused. |
| ForwardPathStore.Ancestor | internal/store/forward_paths.go:134-138 | The reachability query by saturation finds a path if and only if it occurs in the reference closure. |
| ForwardPathStore.PinLine | internal/store/forward_paths.go:376-434 | The captured hops of a line version, or its live members captured now, with every refusal. |
| ForwardPathStore.ExpandPath | internal/store/forward_paths.go:139-244 | The composing loop, which stops at its first error, computes the composition of all steps. |
| ForwardPathStore.PathStore.SaveForwardPath | internal/store/forward_paths.go:245-307 | A save commits as specified or leaves all tables as they were. |
| ForwardPathStore.PathStore.DeleteForwardPath | internal/store/forward_paths.go:335-362 | A delete commits as specified or leaves all tables as they were. |
| ClientChainStore.WalkRoot | internal/store/entry_client_chains.go:55-79 | Walking one root fails exactly for a chain that does not end within eight entries or meets a pending removal. |
| ClientChainStore.ValidateClientChain | internal/store/entry_client_chains.go:20-81 | The nested loops accept a proposal if and only if all chains end within eight entries with it in place and none depends on a pending removal. |
| ClientChainStore.ChainExactly | internal/store/entry_client_chains.go:55-79 | A chain is in order for n entries if and only if, dialling on through positive references, an entry without a dialer is reached before n fronts. |
| ClientChainStore.CreateKeeps | internal/store/entry_client_chains.go:20-81 | An entry validated under a placeholder keeps every chain when stored under its new identifier. |
| ClientChainStore.RemoveKeeps | internal/store/entry_client_chains.go:83-118 | Deleting entries nobody dials through keeps every chain. |
| ClientChainStore.ChainsNeverReturn | internal/store/entry_client_chains.go:55-79 | In a valid store no entry is dialled, however indirectly, through itself, and no chain has eight fronts. |
| ClientChainStore.EntryStore.CreateEntry | internal/store/entries.go:34-58 | Created exactly when every chain survives; the store stays valid. |
| ClientChainStore.EntryStore.UpdateEntry | internal/store/entries.go:164-179 | Updated exactly when every chain survives; the store stays valid. |
| ClientChainStore.EntryStore.RemoveEntries | internal/store/entry_client_chains.go:83-118 | Removed exactly when no entry, removed or not, dials through a removed one; the store stays valid. |
| ClientChainView.AvailablePublications | internal/service/client_chains.go:27-55 | The catalogue loop keeps exactly the lines whose chain is visible to its end. |
| ClientChainView.ShownIsLargestClosed | internal/service/client_chains.go:27-55 | On lines of a valid store the catalogue shows exactly the largest visible set closed under the dialer reference, so the reader's cut-off never disagrees with the validator's. |
| ClientChainView.FilterKeepsOrder | internal/service/client_chains.go:27-55 | The catalogue is a subsequence of the lines with every copy of a shown line. |
| ClientChainView.CheckChain | internal/service/client_chains.go:120-169 | The recursive validity check over a growing set of seen entries. |
| ClientChainView.ValidMonotone | internal/service/client_chains.go:120-169 | A chain valid with more entries seen or more nodes used is valid with fewer. |
| ClientChainView.ClientLines | internal/service/client_chains.go:60-201 | Both early exits and the emission loop emit what the line-by-line specification emits. |
| ClientChainView.EmittedChainsAreWhole | internal/service/client_chains.go:60-201 | Every emitted dependent line is in a chain-capable format and names, as its only dialer under any spelling, a uniquely named front that is emitted too, and so on to a line that needs none, in at most eight nodes. |
| ClientChainView.EmittedExactly | internal/service/client_chains.go:60-201 | A line is emitted if and only if it is a line that needs no front, or a dependent line dialled through its front with a route of at most eight fit, visible, distinct lines. |
| ClientChainView.FitExactly | internal/service/client_chains.go:121-165 | What the validity check asks of a line by itself, field by field and name by name. |
| ClientChainView.CanonicalExactly | internal/service/client_chains.go:126-129 | Field names are compared letter by letter without case and with hyphens for underscores. |
| ClientChainView.DialledExactly | internal/service/client_chains.go:177-194 | A dialled line has one dialer field naming its front and keeps every other field but dialers and, for Stash, the interface. |
| DynamicLimit.BacklogIsNoSpike | internal/service/dynlimit.go:123-160 | One stream of disjoint reports, each averaging at most R, never shows more than R over the trigger window, however long a backlog it covers. |
| DynamicLimit.StreamsAreNoSpike | internal/service/dynlimit.go:123-160 | k interleaved streams never show more than k times R. |
| DynamicLimit.BusyIsFound | internal/service/dynlimit.go:123-160 | A user with one stream of reports that covers the trigger window without a gap and averages the threshold is at or over it. |
| DynamicLimit.SameWindow | internal/service/dynlimit.go:117-154 | With times that do not run backwards, pruned lists and whole history agree on the window and on the rate. |
| DynamicLimit.DynLimit.Append | internal/service/dynlimit.go:117-122 | A batch lengthens exactly the lists of its users, in order. |
| DynamicLimit.DynLimit.Compact | internal/service/dynlimit.go:132-149 | The in-place loop keeps the reports inside the window and adds up the overlapping traffic. |
| DynamicLimit.DynLimit.Sweep | internal/service/dynlimit.go:127-160 | All lists are compacted, empty ones removed, and exactly the users at or over the threshold found. |
| DynamicLimit.DynLimit.Observe | internal/service/dynlimit.go:93-160 | The users found are exactly those whose whole recorded history averages at least the threshold over the window, pruned though the lists are; a user whose reports can be read as k streams of disjoint windows averaging at most R, with k times R below the threshold, is never among them, and one who has a stream that covers the window without a gap at the threshold or more always is. |
| MetricHistory.MergeAssociative | internal/probedata/metrics.go:362-380 | Merging aggregates is associative, first and last values and empty ones included. |
| MetricHistory.ReachesExactly | internal/probedata/metrics.go:417-421 | The points reach exactly as far as the window is long if and only if its whole seconds are a positive multiple of points times step. |
| MetricHistory.ClampExactly | internal/probedata/metrics.go:424-435 | A bucket is moved to the last slot if and only if it lies past the last interval. |
| MetricHistory.ClampOnlyAtEnd | internal/probedata/metrics.go:417-435 | For every query window, in nanoseconds: a bucket before the second in which the window ends is moved to the last slot if and only if the seconds between the ends exceed what the points cover; that is so if and only if the window ends at a smaller fraction of a second than it begins at and its whole seconds are a positive multiple of points times step; and then it is the bucket one second before the end. |
| MetricHistory.EqualFractionsOnlyAtEnd | internal/probedata/metrics.go:417-435 | In a window that does not end at a smaller fraction of a second than it begins at, windows of whole seconds included, only the bucket at the end is ever moved. |
| MetricHistory.ClampInsideFractionalWindow | internal/probedata/metrics.go:417-435 | A window of 500 one-minute points in which the bucket one second before the end is moved. |
| MetricHistory.SlotsCutTheList | internal/probedata/metrics.go:424-435 | Grouping only cuts the time-ordered buckets into consecutive pieces: the slots in order give back the list. |
| MetricHistory.GroupsMerge | internal/probedata/metrics.go:424-454 | Merging the groups of the shown slots is merging all their buckets. |
| MetricHistory.DownSamplingConserves | internal/probedata/metrics.go:406-454 | Merging the shown groups in time order gives exactly what merging all time-ordered buckets gives, and counts add up. |
| MetricHistory.PointsConserveCounts | internal/probedata/metrics.go:406-454 | Point counts sum to the counts of all buckets, empty ones included, with at most maxPoints points, whether or not empty slots are filled. |
| MetricHistory.Readable | internal/probedata/metrics.go:424-431 | The loop skips exactly the empty buckets and refuses exactly when a filled legacy bucket meets an algorithm other than average, sum and count. |
| MetricHistory.GroupBuckets | internal/probedata/metrics.go:424-435 | The loop over a map of groups holds exactly the merged buckets of every slot met. |
| MetricHistory.FilledTimes | internal/probedata/metrics.go:436-441 | Filled series have one time per slot up to the end of the window or the point limit. |
| MetricHistory.MakeSeries | internal/probedata/metrics.go:406-454 | Empty buckets are skipped; the series has one point per shown slot with that slot's merged value and count; refused exactly as `Readable` says. |
| MetricValues.PointsShowTheirBuckets | internal/probedata/metrics.go:362-454 | Every point, by the buckets whose time falls into its interval: the sum, the count, the average, the least minimum, the greatest maximum, the earliest first value or the latest last value of them, and nothing for an empty interval. |
| MetricValues.ShownSlots | internal/probedata/metrics.go:436-454 | Without filling every point stands for some bucket; with filling there is one point per interval until the end or the limit. |
| MetricValues.IntervalIsLeast | internal/probedata/metrics.go:417-421 | No smaller multiple of the step lets the points reach the length of the window. |
| AgentHttps.StepKeepsInv | internal/agenthttps/manager.go:208-441 | Each critical section, from any state that satisfies it, keeps the invariant below. |
| AgentHttps.OneListenerServes | internal/agenthttps/manager.go:208-441 | In every interleaving a listener serves, neither closing nor failed, if and only if it is the active one; every draining listener is closing. |
| AgentHttps.ClosedForGood | internal/agenthttps/manager.go:400-441 | Once closed the manager stays closed and nothing is ever installed again. |
| AgentHttps.FailedApplyChangesNothing | internal/agenthttps/manager.go:208-337 | As long as no Apply succeeds, in whatever phase it fails and whatever else happens, material and closing marks stay as they are, and the active listener is lost only by its own failure. |
| AgentHttps.ReplacementIsAtomic | internal/agenthttps/manager.go:260-320 | At a successful replacement the new listener serves the applied material and the former one served until that very event and is closing from it on. |
| AgentHttps.UndisturbedApply | internal/agenthttps/manager.go:208-320 | From any reachable open state an Apply that nothing goes wrong with ends free of error, serving exactly the material applied, or nothing if disabled; on the same address the listener stays. |
| AgentHttps.Manager.RetireLocked | internal/agenthttps/manager.go:350-368 | The listener is marked closing and draining. |
| AgentHttps.Manager.BeginApply | internal/agenthttps/manager.go:208-224 | Refuses a cancelled, late or malformed request, and keeps the invariant. |
| AgentHttps.Manager.CompareCurrent | internal/agenthttps/manager.go:225-239 | Material already served is not prepared again; expired material is an error that leaves it in place. |
| AgentHttps.Manager.CommitPrepared | internal/agenthttps/manager.go:240-259 | Disables, swaps material in place, or goes on to bind a socket, as specified. |
| AgentHttps.Manager.InstallBound | internal/agenthttps/manager.go:260-320 | A bound socket becomes the active listener and retires the former one; otherwise nothing is lost. |
| AgentHttps.Manager.OnServeFailed | internal/agenthttps/manager.go:321-335 | A failing listener gives up the active place only if it holds it. |
| AgentHttps.Manager.Shutdown | internal/agenthttps/manager.go:402-421 | Closes for good and retires the active listener. |
| ArtifactCache.SortByAge | internal/agentdownload/download.go:596-596 | Oldest first, and a permutation. |
| ArtifactCache.Cache.Sweep | internal/agentdownload/download.go:564-595 | The listing loop leaves exactly the unexpired other files, and lists them. |
| ArtifactCache.Cache.Evict | internal/agentdownload/download.go:597-607 | The shortest prefix whose removal makes room is removed. |
| ArtifactCache.Cache.Prune | internal/agentdownload/download.go:559-607 | What is left is the unexpired files without the shortest oldest-first prefix that meets both bounds. |
| ArtifactCache.Cache.Publish | internal/agentdownload/download.go:513-554 | After a publication the file is in place and the cache holds at most 256 files and 2 GiB; an empty or oversized artifact changes nothing, and without a refusal of the system any other is published. |
| ArtifactCache.OneFlightPerKey | internal/agentdownload/download.go:225-242 | In every run at most one caller holds a key, and every open flight belongs to the caller that opened it. |
| ArtifactCache.FlightsMove | internal/agentdownload/download.go:225-242 | A free key is given to a free caller, a taken one makes everybody wait, and done frees it. |
| DnsHealth.Collect | internal/service/dns_health.go:414-431 | The loops collect one failure per failing family of a failing target, or one per target without families; all-ok means none. |
| DnsHealth.FailuresExactly | internal/service/dns_health.go:414-431 | The failures are exactly the lines of failing families of failing targets, and of failing targets without families. |
| DnsHealth.HealthStore.Check | internal/service/dns_health.go:379-476 | A check in cooldown or under a changed configuration saves nothing; otherwise the window is carried on or begun anew, and the alert follows from it. |
| DnsHealth.CountersFit | internal/service/dns_health.go:433-446 | In every run a failing snapshot has start, last failure and check in order, with five minutes between counted failures. |
| DnsHealth.WindowIsReal | internal/service/dns_health.go:433-446 | In every run the recorded start is the time of a saved check from which on every check saw the same fault in time. |
| DnsHealth.AlertMeansSustained | internal/service/dns_health.go:433-476 | An alert means the same failures of the same targets in every saved check over at least ten minutes with no gap over fifteen; three counted failures already prove it. |
| DnsHealth.ThreeFailuresAlert | internal/service/dns_health.go:433-476 | Conversely, three checks with the same fault, five to fifteen minutes apart, alert. |
| Referrals.Walk | internal/store/coupons.go:204-214 | The bounded loop finds the user if and only if the inviter's chain leads back within 64 levels. |
| Referrals.UserStore.CreateUser | internal/store/users.go:51-100 | A new user under a new identifier keeps the graph free of short cycles. |
| Referrals.UserStore.SetInvitedBy | internal/store/coupons.go:197-223 | One call with no other in between: recorded once, refused for oneself, for a recorded inviter and for a chain leading back within 64 levels. |
| Referrals.CycleExactlyBeyondTheWalk | internal/store/coupons.go:197-223 | Such a call, when permitted, makes the user their own ancestor if and only if the inviter's chain leads back to them above 64 levels. |
| Referrals.RecordClosesExactly | internal/store/coupons.go:215-221 | Writing an inviter closes a cycle within 65 levels if and only if, at that moment, the inviter's chain leads back to the user within 64. |
| ReferralRuns.InvitersAreKept | internal/store/coupons.go:215-221 | In every interleaving of the statements of any number of calls a recorded inviter is never replaced. |
| ReferralRuns.MutualInvitation | internal/store/coupons.go:200-223 | Two users who record each other at the same time both succeed, and each becomes their own ancestor two levels up. |
| ReferralRuns.RecordClosesCycle | internal/store/coupons.go:200-223 | In every interleaving a write closes a short cycle if and only if the inviter's chain leads back at that moment, whatever the walk before it saw. |
| ReferralRuns.OverlapIsNeeded | internal/store/coupons.go:200-223 | In every interleaving a write that closes a short cycle was preceded by the write of another call between its own beginning and itself. |
| ReferralRuns.SerialRunsHaveNoShortCycle | internal/store/coupons.go:194-223 | In every run in which recording calls do not overlap nobody is their own ancestor within 65 levels. |
| ReferralRuns.LongCycleIsPossible | internal/store/coupons.go:194-223 | A run of 66 registrations and one single call that closes a cycle of 66 users. |
| ReferralRewards.LevelPercents | internal/store/coupons.go:164-174 | The rewards are the longest prefix of the three levels that does not end in an unpaid level. |
| ReferralRewards.Ledger.PayRewards | internal/store/orders.go:380-406 | The loop with its set of those already met walks exactly as far as all levels and the buyer are different people, enters one commission per level that is due, and credits exactly that. |
| ReferralRewards.EndIsUnique | internal/store/orders.go:380-406 | Where the reward walk ends is determined by the graph, the buyer and the number of levels. |
| ReferralRewards.RewardsReachOthers | internal/store/orders.go:380-406 | On any graph, cyclic or not, the buyer earns nothing by the order, and whoever stands at a level earns the share of that level and of no other. |
| ReferralRewards.PaidOnce | internal/store/orders.go:380-406 | The bookkeeping of an order, repeated on the same graph, pays nobody anything. |

## Left out

- HTTP handlers, user interface, mail, notifications, backups, payment and the other SQL stores: input, output and plain records, which would add only easy members.
- Diagnostics: wake channels, cursors as strings, wrap-around of the 64-bit generation, copying of samples and a missing authorization callback; the checks of metric values and interface names are one flag of a sample.
- Diagnostics: a tombstone key is a structured value, where the panel joins its parts into one string.
- DiagnosticsBroker.Diagnostics.Poll and the other methods of that class ask for a time not before the zero time, which stands for "never" in the records.
- DiagnosticsBarriers.ReleasedStaysDead: asks that the clock does not run back behind the release, since a repeated release sets the tombstone by its own time.
- DiagnosticsBarriers.DisplacedStaysOut: says nothing once the record itself is gone (idle for five minutes, a changed identity, or a reset), because the list of retired sessions goes with it.
- DiagnosticsProgress.EchoTakesOver: asks that the clock of every step in between lies within the minute of the challenge, since a step with a later clock may prune the challenge.
- Service status: evidence of WireGuard links, reverse links and cores, the status of a node and of an entry; they only supply the statuses of listeners and landing. The reason shown is settled for a series of parts (the first worst one); for alternatives it is computed and no theorem speaks of it.
- Service status: failure keys are structured values, where the panel uses strings with prefixes; evidence is a set, where the panel keeps a sorted list without repetition.
- RuntimeLine.LineSummarizesPaths: only for acyclic lines; on a cyclic one, which neither builder of the panel makes from distinct listeners, the walk depends on the order of visits.
- RuntimeLine.LineSummarizesPaths: the age of an unusable summary is not related to single paths, because the panel dates a failure by the failed parts at every level.
- RuntimeWalk.LineWalk.Visit: asks that listeners on one node share its status and that failure entries carry the node of their key, as the evaluator arranges.
- Paths: names, listing, foreign keys to servers beyond their existence and ingresses, the compilation of routes; a route is a revision it uses.
- Client files: errors of the renderer, and its text; the renderer is the names it renders and the entries it supports.
- DynamicLimit.DynLimit.Observe: asks for times that do not run backwards and a positive trigger window and threshold, which the defaults of the settings see to; enabling and schedules are one flag, renaming of users and the throttling that follows are not modelled.
- Metric history: loading and merging of stored buckets, and rounding of floating-point sums; a metric missing from a bucket is a count of zero.
- MetricHistory.MakeSeries: asks for buckets inside the window, and the conservation lemmas for time order, as the query delivers them.
- Agent HTTPS: parsing, certificates, host matching and TLS are flags and digests; waiting for drains to end is the event that ends one.
- Artifact cache: downloads, checksums, side files and their clean-up, and a failing rename; the system's refusal to remove a file is a parameter.
- ArtifactCache.OneFlightPerKey: a single flight is a state machine on values, so the waiting loop itself and its wake-up are not modelled in place.
- DNS health: resolution, the limit of four checks at once, and whether alerts are enabled.
- Referrals: an invitation is for an inviter that the caller has looked up; deletion of users, the choice of the credited column, first-order-only rewards, refunds and 64-bit overflow of amounts are not modelled.
