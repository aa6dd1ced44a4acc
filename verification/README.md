# Bookkeeping core of a proxy node

This project models the state a proxy node keeps about its users and proves what that state means over
whole runs. The node takes a user list from a panel, limits speed and devices per user, counts traffic,
reports both back, and keeps a list of open links per user.

Parts that change objects in place are classes and loops here too, each method specified by a function
on values; concurrent parts are transition systems whose steps are the atomic actions of the code.
Clocks, map iteration orders, and the success of server and panel calls are inputs.

| file | what it holds |
|---|---|
| `Wrappers.dfy`, `Format.dfy`, `Speed.dfy` | options, user keys, speed limits and bucket rates |
| `LimiterTables.dfy`, `Limiter.dfy`, `LimiterRuns.dfy`, `LimiterEffects.dfy` | the limiter as a value, as an object, over runs, and what each operation does to the tables |
| `CheckRuns.dfy`, `CheckRaces.dfy` | the device step of many checks at once, one map operation at a time, and who can then be accepted |
| `CheckClaims.dfy`, `CheckLosses.dfy` | how interleaved checks make devices leave the tables, and exactly when a claim or an accepted device can be lost within a period |
| `CheckReports.dfy`, `CheckAccounts.dfy` | the same with reports at any moment: exactly when every accepted device is online or has been reported |
| `ReportRuns.dfy` | the inside of a report, step by step beside running checks |
| `BucketRuns.dfy` | the cached bucket against changed limits, one map operation at a time |
| `UserDiff.dfy`, `Monitor.dfy`, `RoundEffects.dfy` | the user-list difference, the monitor round, the limiter staying in step, and when a round takes effect |
| `OnlineReport.dfy` | filtering and grouping of the online report |
| `Json5.dfy`, `Json5Grammar.dfy`, `Json5Reading.dfy`, `Json5Bytes.dfy` | the in-place cleaner, its meaning on token-level documents, that a text has one reading, and what becomes of each byte |
| `TaskRuns.dfy`, `TrafficRuns.dfy`, `ReportTask.dfy` | the periodic timer, traffic accounting, and both together |
| `CounterSize.dfy`, `TrafficCounter.dfy` | the size counter under concurrency, the counter object |
| `UserRegistry.dfy` | the uid table against the proxy's user manager |
| `LinkList.dfy`, `LinkManager.dfy`, `LinkRuns.dfy` | the linked list, the link manager, and histories replayed on it |
| `Sniffing.dfy`, `PeekRuns.dfy`, `Cleanup.dfy` | the peeking reader and sniffing loop, peeks against reads, and the idle-user cleaner |

## What the code does not promise

These properties hold of the code only under a condition. Each condition can be checked beforehand, and each is
proved to be exact, in both directions and for every input, unless the entry says otherwise.

- The incremental user update equals a rebuild exactly for *faithful* lists: a known uuid that appears once
  keeps its id, and a known uuid that repeats has a first entry with the known limits or with the limits of
  its last entry (`UserDiff.AppliedIsLatestIff`). A whole round keeps limiter and list in step exactly when
  it is *harmless* (`Monitor.RoundSyncsIff`): reloads of a node with a fixed name, and reloads whose node
  removal fails, go wrong exactly when they bring a different list.
- Cleaning a document means cleaning its tokens exactly when every `*` inside a block comment is followed,
  inside it, by whitespace (`Json5Grammar.ScanIsCleanIff`), since the loop steps over the byte after a star.
  Cleaning twice is cleaning once exactly when no comma stands directly before a trailing comma
  (`Json5Grammar.IdempotentIff`). The comment on the reader names only line comments; the code blanks both
  kinds.  A comma is left in front of a closing bracket exactly if there were two in a row
  (`Json5Bytes.CleanedCommasIff`).
- The comment in `limiter/limiter.go:134-135` says that a stricter device limit forces a recheck. The recheck
  refuses exactly when the limit is reached and the address is not remembered from the previous period
  (`LimiterRuns.TightenedRecheckIff`).
- A temporary speed limit leaves the cached bucket in place: it is followed exactly when nothing was cached
  or the effective limit is the same (`LimiterRuns.DynamicLimitFollowedIff`).  When it has run out, the next check takes a user without a limit of its
  own out of the user table, and that user is refused from then on (`LimiterEffects.TemporaryLimitEnds`).
- A claim remembered from the previous period is lost to another user's check exactly when that user shares
  the uid (`LimiterRuns.ClaimLostIff`), and an online device keeps its claim over a report, whatever the
  order of the tables, exactly when no other uid is online from its address
  (`LimiterRuns.ReportRenewsClaimIff`).
- With checks running at once, one map operation at a time, an online device leaves the table exactly by a
  report, by its user being dropped, by its own refused call, or by any refused call that made its user's map,
  which takes out the whole map (`CheckClaims.LeavesIff`).
- From any idle state, for any set of calls and within a period (no report in between and no update that drops the
  user): a device stays online or
  remembered and is never refused, in all interleavings, exactly when at the start it is online, or remembered
  with no call of another user that can use the record up, and it is not the case that its user has no map, its
  own record is up for use, and a second address is checked that is full and not remembered in that way
  (`CheckLosses.ClaimKeptIff`). Every accepted device is online throughout the period exactly when no such
  refused call, and no refused twin of the same unkept device, is beside it (`CheckLosses.AcceptedOnlineIff`).
- With reports at any moment of a check: from any idle state and for any set of calls, and while no update drops
  the user, every accepted device is online or was listed by a report since its call began, exactly when none of
  three ways out is open
  (`CheckAccounts.AccountedIff`). A call can look up a map that lacks its device, lose the map to a report and
  still be accepted, because it is not full or another user's device from its address can be in that report
  (`CheckReports.StraddleLost`); it has a full twin (`CheckReports.TwinUnaccounted`); or a full call from a second
  address can make the user's map and be refused while the device is remembered (`CheckReports.MakerUnaccounted`).
  So a single call that is not full, for a user who has a map without its device, can be accepted and be nowhere.
- Interleaved checks of full users, with reports anywhere, accept only known addresses exactly when every call is
  from a known address (`CheckRaces.AnyReportAcceptsIff`): a report can record the entry of a single call in the
  middle of its check. With reports between verdicts only, they do so exactly when no two calls are for the same
  unknown device (`CheckRaces.OnlyKnownAcceptedIff`). A report lets an address in exactly when an undecided call's
  unknown address is online at it (`CheckRaces.ReportAdmitsIff`), so that with reports anywhere the known
  addresses stay those of the start exactly when every call is from one (`CheckRaces.ReportsHarmlessIff`).
- A report that takes its time lists every device that stays online throughout (`ReportRuns.StayersAreListed`). Of
  the map it goes through for a user it misses exactly the addresses entered after it began there and neither
  taken back nor come to (`ReportRuns.UnlistedIff`), and the map it then takes out is that one exactly if no
  update or refusal has taken that out before (`ReportRuns.SameMapIff`).
- A cached bucket matches its user's row, whenever no drop is owed, exactly if no check has stored one for a row
  that had changed since it was read (`BucketRuns.CoherentIff`).
- Bytes are lost exactly when they are added between a report's load and its store of zero
  (`TrafficRuns.LostIsLate`, `TrafficRuns.TrafficConservedIff`). Two reports at once can report bytes twice,
  which is shown by one run (`TrafficRuns.TwoReportersOverReport`); that there is only one is proved from the
  mutex (`ReportTask.ReportsNeverExceedTraffic`).
- Every registered user has a uid entry, at every step of import and rounds, exactly when there is nothing to
  import, or the import names no user twice and the user manager refuses to remove an absent user
  (`UserRegistry.AlwaysKnownIff`). With such a manager a deletion that fails in the middle leaves its user on the
  list and never registered again, whatever the panel lists later (`UserRegistry.StuckForever`), and every round
  fails for as long as the panel leaves the user out (`UserRegistry.BlockedForever`); this is one direction.
- A Start whose Execute fails can stop the task that a second Start has opened in between
  (`TaskRuns.FailedStartStopsNext`, for every closed state; one direction).
- After a Close without a later Start, Execute can still run once for each callback that is past the closed check
  and no more often, so not at all exactly if there is none (`TaskRuns.LateExecution`).
- A link manager follows its history exactly up to the first removal of a writer whose link a CloseAll has
  ended (`LinkRuns.Replay`). That removal leaves the count one short. The next CloseAll starts at the links opened
  since exactly when there are two or more and the node was not the oldest of those cut off with it; it closes
  nothing exactly when there is one (`LinkList.DetachedRemoval`).
- A peeked stream is in order exactly as long as no read gets data from underneath while earlier data is in
  hand or in the cache (`PeekRuns.OrderSurvivesIff`).
- A user key names one user of one node when no uuid contains `|`; with one, keys of two nodes can collide
  (`Format.UserTagIdentifies`, `Format.SeparatorInUuidCollides`).

## Model

| member | source | states |
|---|---|---|
| Format.BuildUserTag | common/format/user.go:5-12 | the buffer built in three appends is the key |
| Format.UserTagInjective | common/format/user.go:5-12 | within a node no two users share a key |
| Format.UserTagIdentifies | common/format/user.go:3-12 | for uuids without the separator, keys are equal exactly when node and user are |
| Format.SeparatorInUuidCollides | common/format/user.go:3-12 | a separator in a uuid makes keys of two nodes equal |
| Speed.DetermineSpeedLimit | limiter/dynamic.go:19-34 | the smaller non-zero limit, zero only if both are |
| Speed.BytesPerSecondExact | limiter/limiter.go:219 | the int64 computation gives 125000 times the limit exactly for limits within 9223372036854 |
| Speed.RateOfLimits | limiter/limiter.go:219-226 | for limits in range no overflow; a bucket exists exactly when a limit is set |
| Limiters.Limiter.constructor | limiter/limiter.go:44-72 | a new limiter's tables are those built from the list, last entry of a uuid winning |
| Limiters.Limiter.UpdateUser | limiter/limiter.go:90-113 | deletes, then adds, and nothing else |
| Limiters.Limiter.UpdateUserLimits | limiter/limiter.go:116-144 | changed limits drop the bucket, stricter ones the devices, user by user |
| Limiters.Limiter.UpdateDynamicSpeedLimit | limiter/limiter.go:146-155 | sets a known user's temporary limit, reports an unknown one |
| Limiters.Limiter.TrackDevice | limiter/limiter.go:184-217 | refuses exactly a new, unremembered device of a user whose positive limit the panel's count has reached; a refusal undoes the early entry and changes nothing |
| Limiters.Limiter.CheckLimit | limiter/limiter.go:157-234 | one check in all its cases: unknown user, expiry, device step, bucket |
| Limiters.Limiter.DrainOnline | limiter/limiter.go:239-251 | in any walk each online pair is reported once, the table ends empty, each address is recorded with its last row |
| Limiters.Limiter.GetOnlineDevice | limiter/limiter.go:236-254 | one report and the start of a new period |
| Limiters.Registry.AddLimiter | limiter/limiter.go:44-72 | a fresh limiter under the tag, other tags untouched |
| Limiters.Registry.DeleteLimiter | limiter/limiter.go:84-88 | exactly the tag's entry goes |
| LimiterRuns.DeleteUsersEffect | limiter/limiter.go:91-97 | deleting a list removes exactly its users from the limit, online and bucket tables, whatever its order |
| LimiterRuns.AddUsersEffect | limiter/limiter.go:98-112 | adding a list enters fresh rows for exactly its users and touches no device or bucket |
| LimiterRuns.LimitsEffect | limiter/limiter.go:116-144 | over a whole list: exactly tightened users lose their devices, no bucket survives a speed change |
| LimiterRuns.CheckEffect | limiter/limiter.go:157-234 | exact refusal condition; a refusal leaves devices, previous period and buckets alone; an acceptance adds exactly its pair |
| LimiterRuns.OnlineIsAdmitted | limiter/limiter.go:184-217 | with each check one step: over every run the online table is the pairs admitted since the last report and not dropped by a user update |
| LimiterRuns.ReportIsAdmitted | limiter/limiter.go:236-251 | with each check one step: a report lists exactly those pairs, once each; the next period starts empty and remembers exactly their addresses |
| LimiterRuns.CheckGrowsFootprint | limiter/limiter.go:184-217 | a check lets a new address in exactly when it is tracked and its user is known and not full |
| LimiterRuns.FootprintNeverGrows | limiter/limiter.go:184-251 | with full users the addresses online or remembered never grow, over any run |
| LimiterRuns.PeriodsShrink | limiter/limiter.go:184-251 | with full users no address comes online after a report that was not online at it |
| LimiterRuns.WithinPeriod | limiter/limiter.go:184-217 | within a period a full user's addresses come from its own at the start and from the previous period |
| LimiterRuns.ClaimLostIff | limiter/limiter.go:194-208 | a remembered claim is lost to another user's check exactly when the uids are shared and the address is taken |
| LimiterRuns.AdmissionIsSticky | limiter/limiter.go:157-217 | with each check one step: a claimed device is accepted after any run, reports that renew the claim included, that does not delete or tighten its user |
| LimiterRuns.ReportRenewsClaimIff | limiter/limiter.go:236-251 | an online device stays claimed over every possible report order exactly when no other uid is online from its address |
| LimiterRuns.AcceptanceClaims | limiter/limiter.go:184-217 | a tracked check accepts exactly when the device is claimed afterwards |
| LimiterRuns.TightenedRecheckIff | limiter/limiter.go:131-138 | after tightening, a device is refused exactly when the limit is reached and its address is not remembered |
| LimiterRuns.RunsStayTidy | limiter/limiter.go:90-144 | over every run without temporary limits, devices and buckets belong to known users and match their rows |
| LimiterRuns.CacheIsTransparent | limiter/limiter.go:219-233 | after every such run a check hands out what computing without a cache would |
| LimiterRuns.DynamicLimitFollowedIff | limiter/limiter.go:146-155 | exactly when a temporary limit shows in the next bucket handed out |
| LimiterRuns.NewTablesTidy | limiter/limiter.go:44-72 | a new limiter is such a state |
| LimiterEffects.RefusesIff | limiter/limiter.go:157-217 | a check refuses exactly an unknown user, and a tracked new, unremembered device when `0 < deviceLimit <= alive[uid]`; mapped IPv4 addresses count as plain |
| LimiterEffects.AcceptedEntry | limiter/limiter.go:184-206 | an accepted tracked check puts exactly its device online, under its user's uid, and forgets the address exactly if it was remembered for that uid |
| LimiterEffects.UntrackedEntersNothing | limiter/limiter.go:184 | an untracked check touches neither devices nor remembered addresses |
| LimiterEffects.BucketHandedOut | limiter/limiter.go:219-233 | the bucket handed out: the cached one, or a new one at 125000 times the smallest limit set, cached from then on; none without a limit |
| LimiterEffects.TemporaryLimitEnds | limiter/limiter.go:168-176 | the check after a temporary limit has run out restores the row of a user with a limit of its own, and removes that of one without, so that it is refused from then on |
| LimiterEffects.TemporaryLimitLasts | limiter/limiter.go:146-178 | until then the row keeps the temporary limit |
| LimiterEffects.UnnamedKeeps | limiter/limiter.go:116-144 | new limits leave users that the list does not name alone |
| LimiterEffects.NamedChanges | limiter/limiter.go:116-144 | a user named once gets the new limits; its bucket goes exactly if the speed changes, its devices exactly if the device limit tightens |
| BucketRuns.CoherentIff | limiter/limiter.go:219-231 | in every interleaving of checks, limit changes and deletions, whenever no drop is owed the bucket matches the row exactly if none was stored for a row changed since it was read |
| BucketRuns.StaleHappens | limiter/limiter.go:122-128 | from every settled state, a check that has read the row can store its bucket after the limit has changed |
| BucketRuns.ChangeAloneFollowed | limiter/limiter.go:122-128 | after an undisturbed change the next undisturbed check hands out the new limit |
| BucketRuns.CheckAndDeleteAlone | limiter/limiter.go:90-97 | an undisturbed check changes no bucket there is; an undisturbed deletion leaves neither row nor bucket |
| CheckRuns.AloneIsAtomic | limiter/limiter.go:184-217 | undisturbed, the separate map operations of a check amount to the atomic device step, a refusal undoing its entry |
| CheckRuns.RunCovered | limiter/limiter.go:184-217 | in any interleaving with full users, every address online or remembered was so at the start or belongs to an undecided call |
| CheckRuns.InterleavedFootprint | limiter/limiter.go:184-251 | so once the calls have their verdicts, no address has come in |
| CheckRuns.AcceptedIsKnownOrShared | limiter/limiter.go:184-217 | in any interleaving with full users and reports between verdicts only, an accepted address was known at the start or another call is for the same device |
| CheckRaces.RaceAccepts | limiter/limiter.go:190-213 | from every quiet state, two calls of one unknown device have a run that accepts one of them |
| CheckRaces.OnlyKnownAcceptedIff | limiter/limiter.go:184-217 | with reports between verdicts only, all interleavings of full calls accept only known addresses exactly when no two are for one unknown device |
| CheckRaces.ReportAccepts | limiter/limiter.go:184-251 | from every quiet state, every call from an unknown address has a run in which a report in the middle of its check gets it accepted, and no table holds it |
| CheckRaces.AnyReportAcceptsIff | limiter/limiter.go:184-251 | with reports anywhere, all interleavings of full calls accept only known addresses exactly when every call is from a known one |
| CheckRaces.ReportAdmitsIff | limiter/limiter.go:236-251 | a report lets an address in exactly when an undecided call's unknown address is in the map online for its user |
| CheckRaces.ReportRemembersRefused | limiter/limiter.go:236-251 | from every quiet state, every full call from an unknown address has a run that refuses and remembers it |
| CheckRaces.ReportsHarmlessIff | limiter/limiter.go:184-251 | with reports anywhere no address comes in exactly when every call is from a known one |
| CheckClaims.LeavesIff | limiter/limiter.go:190-213 | the four ways, and no other, in which a device leaves the online table at a step |
| CheckClaims.StaysOnlineIff | limiter/limiter.go:184-251 | over every run a device stays online exactly as long as none of them happens |
| CheckLosses.ClaimLost | limiter/limiter.go:190-213 | from every idle state under threat: a run that accepts the remembered device and leaves it in no table |
| CheckLosses.ClaimKeptIff | limiter/limiter.go:184-217 | for every idle start, any calls and any device: in all interleavings of a period it stays online or remembered and is never refused, exactly when it is online, or remembered beyond other users' reach, at the start and not under threat |
| CheckLosses.AcceptedOnlineIff | limiter/limiter.go:184-217 | in all interleavings of a period, without a report in between, every accepted device is online, exactly when no refused call beside it is a risk |
| CheckLosses.AcceptedAreReported | limiter/limiter.go:236-251 | without such a risk the report that ends the period lists every device accepted in it |
| CheckReports.EnterIff | limiter/limiter.go:193 | after an entry its device is online exactly if it was before or the map entered is the one now online for the user |
| CheckReports.StraddleLost | limiter/limiter.go:190-193 | from every idle state: a call that can straddle a report in vain has a run that accepts it and leaves it in no table and in no report since it began |
| CheckReports.TwinUnaccounted | limiter/limiter.go:190-203 | so has every call with a full twin for the same device |
| CheckReports.MakerUnaccounted | limiter/limiter.go:205-213 | so has every call beside a full call that can make the user's map and be refused |
| CheckAccounts.AccountedIff | limiter/limiter.go:184-251 | for every idle start, any calls and any device, with reports at any moment and no update that drops the user: in all interleavings an accepted device is online or was listed since its call began, exactly when none of these three is open |
| ReportRuns.UndisturbedIsReport | limiter/limiter.go:236-251 | walked in any order of users and addresses, a report that no check disturbs lists exactly the online devices and ends as the report in one step does |
| ReportRuns.ReportGoesThrough | limiter/limiter.go:236-254 | from every state without a report under way a report can go through to its end |
| ReportRuns.StayersAreListed | limiter/limiter.go:239-250 | whatever checks go on, a report lists every device online when it begins that nothing takes out |
| ReportRuns.UnlistedIff | limiter/limiter.go:242-249 | of the map a visit goes through, exactly those addresses go unlisted that were entered after the visit began and neither taken back nor come to |
| ReportRuns.LateMayBeListed | limiter/limiter.go:190-248 | such an address may be listed as well, if the walk still comes to it |
| ReportRuns.SameMapIff | limiter/limiter.go:249 | the map a visit takes out is the one it has gone through exactly if no update or refusal took that out before |
| ReportRuns.LateHappens | limiter/limiter.go:190-249 | from every state in which a visit has listed all it has to, a call that has looked the map up, is not full, and whose address is not in it nor remembered can enter it, be accepted, and be in no table and in no report |
| UserDiff.CompareUserList | node/user.go:78-119 | deleted users are those absent from the new list, once each in any order; added and updated ones in list order |
| UserDiff.AddedAt | node/user.go:95-111 | exactly which uuids count as added, and that the last entry wins |
| UserDiff.UpdatedAt | node/user.go:95-111 | exactly which users the limit update changes, and to what |
| UserDiff.DiffStands | node/task.go:226-278 | the limiter calls of a diff turn the table of one user map into the table of the applied map |
| UserDiff.StandsUnique | limiter/limiter.go:53-67 | a user table determines its user map and the other way round |
| UserDiff.AppliedIsLatestIff | node/user.go:78-119 | the incremental update equals a rebuild exactly for faithful lists |
| UserDiff.DistinctIsFaithful | node/user.go:78-119 | lists of distinct uuids that keep their ids are faithful |
| Monitor.Controller.constructor | node/controller.go:80-92 | a started controller's limiter is registered under its tag and built from its list |
| Monitor.Controller.NodeInfoMonitor | node/task.go:58-285 | one round with every early return; this limiter under the current tag, none under a tag given up, other tags untouched |
| Monitor.Controller.SyncUsers | node/task.go:222-284 | the user-diff branch; a failed server call leaves list and limiter as they were |
| Monitor.Controller.Reload | node/task.go:118-220 | the reload branch; the list advances before the node removal can fail |
| Monitor.Controller.RebuildLimiter | node/task.go:143-153 | the old tag's limiter goes, the new tag's is built from the list |
| Monitor.LookUpAfterRound | core/xray/app/mydispatcher/default.go:615-620 | after a round a connection finds the controller's limiter under its tag, none under a tag given up, and what was there before elsewhere |
| Monitor.RoundSyncsIff | node/task.go:118-284 | for every round: the limiter still equals a rebuild exactly when the round is harmless |
| Monitor.RoundKeepsHealthy | node/task.go:118-284 | an orderly round keeps limiter, list and buckets right whatever fails in it |
| Monitor.ServeKeepsHealthy | limiter/limiter.go:157-254 | so does every check and every report |
| Monitor.RunsStayHealthy | node/task.go:118-284 | and so does every run of rounds, checks and reports |
| Monitor.StartsHealthy | node/controller.go:80-92 | a controller starts so |
| RoundEffects.AcceptsIff | node/task.go:218-284 | a round without a reload accepts the panel's list exactly when it is not empty and every server call that the difference needs succeeds; otherwise only the alive counts change |
| RoundEffects.UnfetchedKeeps | node/task.go:61-93 | a round whose requests fail changes nothing |
| RoundEffects.AcceptedUsersHaveRows | node/task.go:226-279 | after an accepted list exactly its users have rows |
| RoundEffects.LeftOutLoseAll | node/task.go:228-262 | a user it leaves out has neither devices nor a bucket left |
| RoundEffects.KeptUsersKeepDevicesIff | node/task.go:272-278 | a user that stays listed keeps its devices exactly unless its device limit tightens, and its bucket exactly if its speed limit stays |
| RoundEffects.ReloadEffect | node/task.go:118-220 | a reload takes the list over in any case; an empty limiter with a row for each listed user starts under the new tag exactly if the tag follows the configuration and the node was taken down |
| OnlineReport.GroupOnline | node/user.go:35-56 | the posted map has exactly the uids with a row in the report and no traffic row under the threshold, each with its addresses in report order |
| OnlineReport.AddressesForCounts | node/user.go:52-56 | an address occurs under a uid as often as its row in the report |
| OnlineReport.RowsAreDevices | limiter/limiter.go:239-251 | with unique uids each online device is one row and each row a device |
| OnlineReport.PostedIsAdmitted | node/user.go:30-56 | with each check one step: what is posted is exactly what was admitted in the period, less the idle uids |
| Json5.SkipString | common/json5/json5.go:61-70 | ends just after the first unescaped quote, or past the end |
| Json5.BlankLine | common/json5/json5.go:22-27 | exactly the rest of the line becomes spaces |
| Json5.BlankBlock | common/json5/json5.go:28-45 | what the body becomes, and where the loop stops with or without a terminator |
| Json5.ConsumeComment | common/json5/json5.go:21-47 | writes exactly the comment's bytes, or nothing where none starts |
| Json5.TrimComma | common/json5/json5.go:73-87 | decides the comma by the next significant byte and leaves the text before the index clean |
| Json5.Prep | common/json5/json5.go:49-93 | on every buffer ends in range with the cleaned text in place |
| Json5.ScanSpacesOrSame | common/json5/json5.go:49-93 | cleaning keeps the length and every byte is unchanged or a space |
| Json5Grammar.CleanMeaning | common/json5/json5.go:95-97 | the cleaned document has the original's significant tokens less its trailing commas |
| Json5Grammar.ScanIsClean | common/json5/json5.go:49-93 | for every document with safe stars, cleaning the bytes is cleaning the tokens |
| Json5Grammar.ScanIsCleanIff | common/json5/json5.go:28-45 | and for no other document |
| Json5Grammar.UnsafeShows | common/json5/json5.go:31-44 | in any other document a byte of a comment survives |
| Json5Grammar.BlockLeaks | common/json5/json5.go:31-44 | where it survives in the comment |
| Json5Grammar.StringsSurvive | common/json5/json5.go:60-70 | every string literal comes through byte for byte at its place |
| Json5Grammar.IdempotentIff | common/json5/json5.go:73-87 | cleaning twice is cleaning once exactly without a comma before a trailing comma |
| Json5Reading.ReadingIsUnique | common/json5/json5.go:58-91 | a text has at most one reading as tokens |
| Json5Reading.CleanedHasOneMeaning | common/json5/json5.go:95-97 | however the cleaned bytes are read, the significant tokens are the original's less its trailing commas |
| Json5Bytes.TokensInBytes | common/json5/json5.go:13-19 | which bytes make up each kind of token |
| Json5Bytes.UnitsInBytes | common/json5/json5.go:60-70 | an escape is a backslash and one byte, which may be a quote |
| Json5Bytes.TokenFate | common/json5/json5.go:49-93 | every token at its place: strings and blanks unchanged, comments white, a comma a space exactly if `]` or `}` is the next significant byte, any other byte unchanged |
| Json5Bytes.DropsExactly | common/json5/json5.go:73-87 | of the significant tokens exactly the commas in front of `]` or `}` go; all others stay in order |
| Json5Bytes.CleanedCommasIff | common/json5/json5.go:73-87 | however the cleaned text is read, a comma is left directly before `]` or `}` exactly if the document had two in a row there |
| Json5Bytes.OpenString | common/json5/json5.go:60-70 | an unclosed string runs unchanged to the end of the text |
| Json5Bytes.OpenBlock | common/json5/json5.go:28-45 | an unclosed block comment is blanked to the end |
| Json5Bytes.LoneSlash | common/json5/json5.go:73-87 | a slash that starts no comment stays, and after a comma hides the byte behind it |
| TaskRuns.RunInvariant | common/task/task.go:20-78 | in every interleaving the thread in Execute holds the mutex, and live chains are at most the effective starts |
| TaskRuns.ExecuteNeverOverlaps | common/task/task.go:32-39 | two threads are never inside Execute |
| TaskRuns.RunGoesOn | common/task/task.go:27-67 | at no step of any run is a task running with no timer armed and no thread on its way |
| TaskRuns.OneChain | common/task/task.go:27-67 | while nothing fails and no Close comes, a started task has exactly one armed timer or thread in flight |
| TaskRuns.NextExecute | common/task/task.go:32-48 | from every state of a running task the task by itself gets to the next Execute |
| TaskRuns.FinishRearms | common/task/task.go:40-45 | the end of a round of a running task arms one new timer and remembers it, and a Close stops that one |
| TaskRuns.StartRuns | common/task/task.go:51-67 | a Start on a closed task gets to Execute |
| TaskRuns.FailureCloses | common/task/task.go:34-38 | Execute can end either way, and a failure leaves the task closed with no new timer |
| TaskRuns.StopsIff | common/task/task.go:32-78 | a running task is stopped exactly by a Close, a failing Execute, or the end of a Start that has failed |
| TaskRuns.GiveUpsAreStarts | common/task/task.go:60-65 | only Start calls give up |
| TaskRuns.FailedStartStopsNext | common/task/task.go:51-67 | from every closed state: a failing Start can stop the task that a second Start has opened in between |
| TaskRuns.WindsDown | common/task/task.go:27-48 | without a Start all threads of a closed task can come to their end |
| TaskRuns.ClosedRun | common/task/task.go:27-48 | without a start, a closed timer stays closed and arms nothing |
| TaskRuns.AfterLastClose | common/task/task.go:69-78 | after the last close nothing is armed, and Execute runs at most once per callback past the closed check |
| TaskRuns.LateExecution | common/task/task.go:27-39 | from every state in which a Close comes: Execute can run as often as callbacks are past the closed check and no more, so not at all exactly if none is |
| TrafficRuns.RunBalances | core/xray/user.go:83-104 | with one reporter: added = held + reported + discarded + lost + in hand, at every step |
| TrafficRuns.NeverOverReports | core/xray/user.go:83-104 | with one reporter, reported plus held never exceeds added |
| TrafficRuns.LostIsLate | core/xray/user.go:86-92 | with one reporter, what is lost is exactly the bytes added between a load and the store of zero after it |
| TrafficRuns.TrafficConservedIff | core/xray/user.go:83-104 | with one reporter, no byte is missing, in the map or out of it, exactly when there are no such bytes |
| TrafficRuns.SmallTrafficCarriedForward | core/xray/user.go:86-92 | traffic up to the threshold stays where it is, and only that |
| TrafficRuns.EntryAlone | core/xray/user.go:83-104 | an undisturbed visit: up to the threshold nothing changes; above it a known user's bytes are all reported, an unknown one's discarded with the entry, and the counters are zero |
| TrafficRuns.OneObjectUntilGone | common/counter/traffic.go:22-64 | a user keeps one storage object until its entry is removed or a report finds it without a uid |
| TrafficRuns.RemovedReturnsFresh | common/counter/traffic.go:22-64 | an entry can be removed at any time, and the user then starts with a new storage object |
| TrafficRuns.NewUidsCount | core/xray/user.go:77-97 | a report goes by the uids set last |
| TrafficRuns.TwoReportersOverReport | core/xray/user.go:86-101 | a run in which two reports at once report the same bytes twice |
| TrafficRuns.LateAddIsLost | core/xray/user.go:86-92 | every add between a load and its zeroing is lost, whatever else the run does |
| TrafficRuns.LateAddHappens | core/xray/user.go:86-92 | from every state between reports, any entry above the threshold can lose any number of bytes |
| ReportTask.RunGood | node/task.go:20-29 | reports run inside Execute only, so there is one at a time and the books balance |
| ReportTask.ReportsNeverExceedTraffic | node/user.go:10-13 | in every interleaving of timer, writers, user changes and report steps, never more reported than added |
| ReportTask.SystemConservesIff | node/user.go:10-13 | in all of these, without assuming one reporter, no byte is missing exactly when none has been added in a window |
| CounterSize.StepAgrees | common/counter/traffic.go:22-64 | every step of concurrent calls keeps the agreement |
| CounterSize.SizeAgrees | common/counter/traffic.go:22-64 | the size is off by exactly the calls in flight, and exact when there are none |
| CounterSize.GetAlone | common/counter/traffic.go:22-32 | an undisturbed GetCounter leaves its key in the map and the size right |
| CounterSize.DeleteAlone | common/counter/traffic.go:60-64 | an undisturbed Delete takes its key out and leaves the size right |
| TrafficCounters.TrafficCounter.GetCounter | common/counter/traffic.go:22-32 | the user's storage object, the same until deleted, a fresh zero one otherwise |
| TrafficCounters.TrafficCounter.Delete | common/counter/traffic.go:60-64 | exactly the entry goes and the size stays exact |
| TrafficCounters.TrafficCounter.Reset | common/counter/traffic.go:53-58 | zeroes one user's counters and no other's |
| TrafficCounters.TrafficCounter.Tx | common/counter/traffic.go:71-74 | adds to the up counter alone, of this user alone |
| TrafficCounters.TrafficCounter.Rx | common/counter/traffic.go:66-69 | adds to the down counter alone, of this user alone |
| TrafficCounters.TrafficCounter.Len | common/counter/traffic.go:48-51 | the number of entries |
| TrafficCounters.TrafficCounter.GetUserTrafficSlice | core/xray/user.go:77-111 | one row for each known user above the threshold; unknown ones leave the map; the rest is carried forward |
| TrafficCounters.ReportMeans | core/xray/user.go:77-104 | entry by entry: upload and download together decide; a known user above the threshold has exactly one row with its bytes, an unknown one leaves the map, and only entries above it are zeroed |
| UserRegistry.Xray.AddUsers | core/xray/user.go:147-193 | every uid is entered before any user is registered; a failure in mid-list leaves every registered user known |
| UserRegistry.Xray.DelUsers | core/xray/user.go:34-75 | all tables lose exactly the listed users, or a failure leaves all but the manager untouched |
| UserRegistry.EnteredAt | core/xray/user.go:147-173 | the uid entered for a user is that of its last mention, and no other entry changes |
| UserRegistry.RunInvariant | core/xray/user.go:45-60 | an inductive invariant of import and monitor steps, failures included |
| UserRegistry.RegisteredUsersAreKnown | node/controller.go:105-133 | at every step of import and rounds each registered user has a uid entry, given distinct users and a strict manager, or nothing to import |
| UserRegistry.LenientManagerFails | core/xray/user.go:45-60 | with a manager that removes absent users without an error this fails for every import that is not empty |
| UserRegistry.RepeatedUserFails | core/xray/user.go:147-173 | it fails for every import that names a user twice, with any manager |
| UserRegistry.AlwaysKnownIff | node/controller.go:105-133 | exactly which managers and imports keep every registered user known |
| UserRegistry.InStepBetweenRounds | node/task.go:226-279 | as long as nothing fails, between rounds the manager holds exactly the listed users but those still to be imported, and the uid table exactly the listed ones |
| UserRegistry.RoundGoesThrough | node/task.go:226-279 | from every such state after the import, a round to any list can go through, and both tables then hold exactly that list |
| UserRegistry.FailureEndsRound | node/task.go:230-260 | a failing call ends the round with list and uid table as they were |
| UserRegistry.ImportEndsAtFailure | node/controller.go:105-133 | after a failed registration the import registers nobody |
| UserRegistry.FailureSticks | core/xray/user.go:45-53 | every deletion that fails after removing a user leaves that user out of the manager but on the list |
| UserRegistry.StuckForever | node/task.go:226-239 | such a user stays on the list and is never registered again, whatever the panel lists in later rounds |
| UserRegistry.BlockedForever | node/task.go:226-239 | and as long as the panel leaves the user out, no round changes the list |
| LinkList.List.PushBack | core/xray/app/mydispatcher/linkmanager.go:55 | the ring stays well linked and gains one node at the end |
| LinkList.List.Remove | core/xray/app/mydispatcher/linkmanager.go:65 | a node of the ring goes and the others keep their order; a node cut off by a reset leaves the length one short and may redirect the front |
| LinkList.DetachedRemoval | core/xray/app/mydispatcher/linkmanager.go:64-80 | for every list: a reset, new nodes, then an old one removed; the length is one short, and exactly when the next walk starts at the new nodes, and when nowhere |
| LinkManagers.IndexOfCount | core/xray/app/mydispatcher/linkmanager.go:35-39 | the index has as many entries as there are open links |
| LinkManagers.LinkManager.AddLink | core/xray/app/mydispatcher/linkmanager.go:49-58 | list, index and the writers' nodes stay in bijection with one more open link at the end |
| LinkManagers.LinkManager.RemoveWriter | core/xray/app/mydispatcher/linkmanager.go:60-69 | for every writer of the manager: list, index and count stay right exactly when it has no node or is in the index; otherwise the count is one short |
| LinkManagers.LinkManager.CloseAll | core/xray/app/mydispatcher/linkmanager.go:71-82 | closes each open link once, oldest first, and forgets all |
| LinkManagers.ActionsAt | core/xray/app/mydispatcher/linkmanager.go:75-79 | for each link its writer is closed and then its reader interrupted |
| LinkManagers.LinkManager.GetConnectionCount | core/xray/app/mydispatcher/linkmanager.go:84-88 | list length, index size and open links are one number |
| LinkManagers.LinkManager.CloseManaged | core/xray/app/mydispatcher/linkmanager.go:23-26 | closing a writer takes out its link, under the same exact condition, and closes what it wraps |
| LinkRuns.Replay | core/xray/app/mydispatcher/linkmanager.go:49-88 | a real manager over any history: open links, count and closings are the history's exactly if no removal follows a CloseAll that ended the link; the first such removal leaves the count one short |
| LinkRuns.OpenAreSurvivors | core/xray/app/mydispatcher/linkmanager.go:49-82 | the open links that Replay's manager has are those added and not ended since, in the order added |
| LinkRuns.ClosedOnce | core/xray/app/mydispatcher/linkmanager.go:71-82 | of what Replay has closed no link is closed twice, and none that is open has been closed |
| LinkRuns.CountIsBalance | core/xray/app/mydispatcher/linkmanager.go:84-88 | the number of open links, which is the count of Replay over a legal history, is adds less effective removals since the last CloseAll |
| Sniffing.CachedReader.Cache | core/xray/app/mydispatcher/default.go:53-68 | data read ahead joins the unread bytes in order; the peek buffer is their first part that fits |
| Sniffing.CachedReader.ReadInternal | core/xray/app/mydispatcher/default.go:70-81 | hands on all unread bytes at once, or nothing |
| Sniffing.CachedReader.ReadMultiBuffer | core/xray/app/mydispatcher/default.go:83-99 | cached bytes first, then those underneath; what has left the reader and what is cached is what was consumed, in order |
| Sniffing.CachedReader.Interrupt | core/xray/app/mydispatcher/default.go:101-110 | exactly the unread bytes are dropped |
| PeekRuns.OrderSurvivesIff | core/xray/app/mydispatcher/default.go:53-90 | with reads and locked sections as separate steps, nothing is lost, repeated or reordered exactly as long as no read overtakes waiting data |
| PeekRuns.AloneInOrder | core/xray/app/mydispatcher/default.go:53-90 | so the order survives when a peek and a read are never under way together |
| PeekRuns.PeekThenRead | core/xray/app/mydispatcher/default.go:53-99 | after an undisturbed peek the next read hands on all that was waiting and all that was peeked |
| PeekRuns.ReadThrough | core/xray/app/mydispatcher/default.go:83-99 | a read of an empty cache hands on what it gets from underneath |
| Sniffing.Sniffer.Sniff | core/xray/app/mydispatcher/sniffer.go:58-82 | never asks for more data; the first sniffer of the network that finds wins; narrows to exactly those of the network without a clue |
| Sniffing.Sniffer.SniffMetadata | core/xray/app/mydispatcher/sniffer.go:84-109 | the first metadata sniffer that finds wins; narrows to exactly the content sniffers and those without a clue |
| Sniffing.CluelessSubsequence | core/xray/app/mydispatcher/sniffer.go:59-77 | what remains is, in order, exactly the content sniffers of the network that answered "no clue" |
| Sniffing.MetaCluelessSubsequence | core/xray/app/mydispatcher/sniffer.go:85-104 | the same for metadata, content sniffers staying |
| Sniffing.SniffContent | core/xray/app/mydispatcher/default.go:565-599 | the outcome of every exchange: a first look that finds, knows no clue, fails or is cancelled decides at once; without a clue the time or a second round among those still without one decides; at most two Cache calls, and no looked-at byte is lost |
| Cleanup.Dispatcher.MarkUserActive | core/xray/app/mydispatcher/default.go:190-197 | time and tag of one user, no other user's |
| Cleanup.Dispatcher.CleanupUserResources | core/xray/app/mydispatcher/default.go:199-210 | exactly one user's links, state and counter go |
| Cleanup.Dispatcher.Tick | core/xray/app/mydispatcher/default.go:157-188 | removes exactly min(200, idle) idle users, in any walk |
| Cleanup.TickTakes | core/xray/app/mydispatcher/default.go:162-186 | only users without an open link and idle for more than ten minutes are taken, all of them unless 200 are; links and state of those taken go, and their counters on their own node |
| Cleanup.OthersUntouched | core/xray/app/mydispatcher/default.go:162-186 | a user that is not idle keeps links, state and counters |
| Cleanup.FullBatches | core/xray/app/mydispatcher/default.go:156-188 | while an idle user waits, every tick takes a full batch |
| Cleanup.IdleUsersGone | core/xray/app/mydispatcher/default.go:156-188 | a user idle at the start is gone after as many ticks as batches of 200 are needed |

## Left out

- The panel's HTTP client and JSON decoding, certificates, file watching, command line, logging and statistics: input and output.
- Inbound, outbound, DNS and account building, routing and pipes: they wrap xray-core, which is not part of this model. Its user manager is a set whose operations may fail.
- Regular-expression rules (`UpdateRule`, domain and protocol rules) and fake-DNS matching; a failing rule update only ends a reload after the limiter is ready.
- The token bucket: a bucket is its rate.
- `AddDynamicSpeedLimit` and `SpeedChecker` with its `c.traffic` map; expiry and `UpdateDynamicSpeedLimit` are modelled.
- The `OverLimit` field, which is always false, and the unused `isTcp` parameter of `CheckLimit`.
- LimiterRuns.AdmissionIsSticky: each check is one step; with checks interleaved a claim can be lost, exactly as `CheckLosses.ClaimKeptIff` says.
- LimiterRuns.OnlineIsAdmitted: each check and each report is one step; interleaved, an accepted pair can be in no table, exactly as `CheckLosses.AcceptedOnlineIff` and `CheckAccounts.AccountedIff` say.
- LimiterRuns.ReportIsAdmitted: each check and each report is one step, as in OnlineIsAdmitted; `ReportRuns` has the inside of a report.
- CheckLosses.ClaimKeptIff: within one period and from an idle state; an interleaving that goes on over a report is covered by `CheckClaims.LeavesIff` for devices online and by `CheckAccounts.AccountedIff` for accepted ones.
- CheckLosses.AcceptedOnlineIff: within one period, no report in between; `CheckAccounts.AccountedIff` has reports at any moment.
- CheckLosses.AcceptedAreReported: within one period, as AcceptedOnlineIff.
- CheckRuns.AcceptedIsKnownOrShared: reports come only when every call has its verdict; `CheckRaces.AnyReportAcceptsIff` has them anywhere.
- CheckRaces.OnlyKnownAcceptedIff: reports come only when every call has its verdict, as before.
- CheckAccounts.AccountedIff: a report is one step here; what its inside can miss besides is said by `ReportRuns`, for one report at a time. Interleavings in which an update drops the user are left to `CheckClaims.LeavesIff`.
- BucketRuns.CoherentIff: one user; temporary limits and a user that is deleted and added again are not modelled.
- Limiters.Limiter.CheckLimit: one atomic step, like the other limiter methods; `CheckRuns` takes its device step apart, `BucketRuns` its bucket part and `ReportRuns` the report, but the reads of the alive count and the fields of one row are not.
- The alive map is a value: a missing map and an empty one are the same, and the map shared between panel client and limiter is not aliased.
- Monitor.Controller.Reload: what failures after the limiter update do to the proxy server is not modelled, since they leave the limiter alone.
- Monitor.RunsStayHealthy: reloads of a node with a fixed name, and reloads whose node removal fails, are excluded here; `Monitor.RoundSyncsIff` covers them exactly.
- OnlineReport.PostedIsAdmitted: each check and each report is one step, as in LimiterRuns.OnlineIsAdmitted; the posted rows' wire format and the panel's answer are not modelled.
- TrafficRuns.NeverOverReports: counters are unbounded integers, so the wrap of an int64 counter is not modelled; a report may visit any storage object ever made for a key, which over-approximates the map's iteration; a report always resets, as the node calls it; traffic whose post to the panel fails counts as reported.
- TaskRuns.RunInvariant: an Execute that starts or closes its own timer (node/task.go:207-212) is not modelled; the mutex is not re-entrant.
- UserRegistry.RegisteredUsersAreKnown: a node reload while the import runs is not modelled, and a failure before the uid table is touched (no such inbound) changes nothing and has no step.
- LinkRuns.Replay: stops at the first illegal removal; of what comes later only the start of the next walk is modelled (`LinkList.DetachedRemoval`), and that a reset makes the list right again. Each writer is added once, as the dispatcher makes a new one per link (core/xray/app/mydispatcher/default.go:298-303, 486-510).
- Closing through `CloseAll` is an action per link; errors of the closed writers are dropped by the source as well.
- Sniffing.SniffContent: individual sniffers are oracles, the deadline is whatever the environment says has elapsed, and the final choice between metadata and content result is left out.
- Sniffing.CachedReader.Cache: the read underneath and the locked section after it are one step here, and two in `PeekRuns`.
- Cleanup.Dispatcher.Tick: one step; a link opened while the walk is under way is not modelled. A removed user's links are none by then, so closing them has no effect here.
- Bytes of text are `seq<byte>` in the cleaner; tags, uuids and addresses are strings of characters.
