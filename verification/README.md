# CashPilot Desktop: verified models

CashPilot Desktop runs passive-income containers, watches their traffic and network
activity, adds up what they earn and reports to a fleet server. This project models the
parts of it that carry state, protocols or arithmetic, and proves what they promise.
`dafny verify dfyconfig.toml` checks everything.

| file | what it models |
|---|---|
| `Interpolation.dfy`, `Faithful.dfy`, `Exporter.dfy` | the Docker Compose exporter as a compiler: the text it writes, Compose's later expansion of that text, and exactly which strings survive |
| `CgroupWalk.dfy`, `Netlink.dfy`, `Snapshots.dfy` | the helper that runs inside a network namespace: the bounded walk for a container's cgroups, the reader of a `sock_diag` netlink dump, and the fold over socket snapshots |
| `ProxyCap.dfy`, `TrafficLedger.dfy` | a proxy's byte counters, cap, period reset and edits, one pass and whole runs |
| `ActivitySwitch.dfy` | sampling rounds against switching off, deleting, retrying and restarting, in every interleaving |
| `Grouping.dfy`, `RowBudget.dfy`, `Deltas.dfy` | one activity round: earners grouped by network namespace, one sample per group, the row caps, and the counters kept between rounds |
| `RateLimiter.dfy`, `Enrolment.dfy` | the fleet server: its in-place rate limiter, and the enrolment of per-worker keys over a lossy channel |
| `Importers.dfy` | another tool's settings files: splitting lines and reading one value as a shell would |
| `Rating.dfy` | grading a service by the published method |
| `Accrual.dfy` | what each platform earned between two days, in the display currency |
| `Common.dfy` | optional values and the string operations of Go's standard library that several models use |

Code that changes state or loops is a method or a class proved against a function of its
inputs; what the code is for is then proved of that function, over all inputs and, for the
protocols, over every run.

The code falls short of what it is for in these places, each with the exact condition, or a
case that reaches it:

- a string with a `$` that starts no closed token is not carried faithfully, and no other string is lost (`Faithful.FaithfulExactlyWhenWellFormed`);
- a volume and the environment can disagree exactly when the volume refers to a key that is declared twice, once to be supplied and later pinned to a text with a dollar sign (`Exporter.VolumeAgreesExactly`; `Exporter.ClashingEntry` is such an entry);
- a call to the rate limiter can be accepted beyond the limit exactly when its time is before that of an earlier call (`RateLimiter.OverrunExactlyWhenLate`);
- a second sender with the shared key takes over an unconfirmed device, and the client is then rejected exactly when it held a key (`Enrolment.SecondSenderTakesOver`; `Enrolment.SecondSenderInstance` is one heartbeat away);
- a counter difference wraps exactly when it exceeds 64 bits (`Deltas.DifferenceFits`);
- points the rating check accepts can punish a better verdict exactly when they do not follow the verdicts (`Rating.PointsDecide`), and accepted bands exactly when a letter improves down those a share can reach (`Rating.BandsDecide`);
- an accepted value is not what the shell reads exactly when a space other than a blank stands outside it, or a newline outside quotes (`Importers.ShellSound`; `Importers.OtherBlanksDiffer` is the simplest family);
- on the thirty-first of a month the thirty daily figures no longer cover the month's figure (`Accrual.ThirtyFirstDayIsMissed`).

## Model

| member | source | states |
|---|---|---|
| Interpolation.Interpolate | internal/compose/compose.go:376-400 | the index-and-builder scan computes `Interpolated`, the function the theorems are about |
| Interpolation.EscapedRoundTrip | internal/compose/compose.go:402-407 | an escaped entrypoint word looks nothing up and expands back to itself, for every .env |
| Interpolation.UndeclaredStaysVisible | internal/compose/compose.go:361-400 | an undeclared `${KEY}` is written so that Compose shows it as written |
| Interpolation.ExportPreservesMeaning | internal/compose/compose.go:361-400 | for every well-formed string and every .env, Compose's expansion of the exported text is the string with each declared variable replaced by what its environment entry expands to and each undeclared one as written; one is refused exactly when the other is |
| Interpolation.ExportLooksUpOnlyDeclared | internal/compose/compose.go:361-400 | the exported text looks up nothing that its variables' environment entries do not look up |
| Interpolation.ParsedRenders | internal/compose/compose.go:361-400 | the template a well-formed string is read as renders back to the string |
| Interpolation.RenderParses | internal/compose/compose.go:361-400 | every rendered template is well formed and reads back as itself |
| Interpolation.ExpandDependsOnLookedUp | internal/compose/compose.go:361-400 | two .env files that agree on the variables a text looks up expand it alike |
| Interpolation.ExpandConcat | internal/compose/compose.go:361-400 | closed text expands on its own, whatever follows it |
| Faithful.Shrinks | internal/compose/compose.go:361-400 | with nothing declared the exported text never expands to more than the string, and to less, or to a refusal, when the string is not well formed |
| Faithful.FaithfulExactlyWhenWellFormed | internal/compose/compose.go:361-400 | with nothing declared, Compose gives a string back as written, whatever the .env holds, if and only if every `$` in it starts a closed token |
| Exporter.CarryOne | internal/compose/compose.go:331-354 | one declaration writes its key as a placeholder, an overridable default or an escaped text, and nothing else |
| Exporter.Environment | internal/compose/compose.go:327-359 | the block says of every key what its last writing declaration says; the placeholders and settings are the declared ones in order |
| Exporter.VolumeEnvironment | internal/compose/compose.go:263-274 | the volumes see the block with every key to be supplied made mandatory |
| Exporter.InterpolateAll | internal/compose/compose.go:275-277 | every volume is interpolated, in order |
| Exporter.EscapeAll | internal/compose/compose.go:278-283 | every entrypoint word is escaped, in order |
| Exporter.ServiceBlock | internal/compose/compose.go:202-294 | the block, volumes, entrypoint and command of one service, as one exported value |
| Exporter.FormExpands | internal/compose/compose.go:337-353 | an environment entry is closed, looks up only its own key, and expands to the supplied value, its default or its pinned text |
| Exporter.RequiredPathExpands | internal/compose/compose.go:263-274 | a host path to be supplied is refused by Compose until it is set, and is then its value |
| Exporter.EnvironmentExpands | internal/compose/compose.go:327-359 | every entry of the block expands to a value, and looks up only keys the block names |
| Exporter.ContainerHas | internal/compose/compose.go:327-359 | the container has exactly the keys that some declared variable writes |
| Exporter.ContainerGets | internal/compose/compose.go:327-359 | for every .env a key has what its last writer is to give it: a supplied value, or its default with the machine's name in it, which only a filled key overrides and only when it holds no dollar sign |
| Exporter.AskedKeysAreTold | internal/compose/compose.go:350-353 | the header is told exactly the keys of secrets and of required variables without a default |
| Exporter.DefaultsAreTold | internal/compose/compose.go:337-348 | and exactly the defaults that can be changed, marked when they hold the machine's name |
| Exporter.ReplaceIsJoin | internal/compose/compose.go:422-427 | the machine's name replaces every occurrence of the pattern and nothing else |
| Exporter.CutAtHostname | internal/compose/compose.go:422-427 | every text is such pieces around the pattern |
| Exporter.CommandMeansWhatTheCatalogSays | internal/compose/compose.go:284-286 | the expanded command is the catalog's command with each variable replaced by what the container's own environment holds |
| Exporter.EntrypointIsUntouched | internal/compose/compose.go:278-283 | every entrypoint word reaches the container as the catalog wrote it |
| Exporter.VolumeMeansWhatTheCatalogSays | internal/compose/compose.go:263-277 | with every key to be supplied set, a volume that refers to no key both asked for and pinned expands to the catalog's volume with the environment's values |
| Exporter.PinnedKeyDisagrees | internal/compose/compose.go:263-277 | a volume that refers to such a key differs from the environment's values under some .env with every key set |
| Exporter.VolumeAgreesExactly | internal/compose/compose.go:263-277 | a volume has the environment's values under every .env with all keys set if and only if it refers to no key both asked for and pinned |
| Exporter.ClashingEntry | internal/compose/compose.go:331-354 | a well-formed entry whose volume refers to such a key |
| Exporter.Unique | internal/compose/compose.go:548-560 | every non-empty value once |
| Exporter.UniqueSettings | internal/compose/compose.go:534-546 | the first setting of every key, and one for each key |
| Exporter.Generate | internal/compose/compose.go:93-145 | an unknown or unexportable slug is refused; otherwise the file holds exactly the selected services, however often one is listed, and gathers the placeholders and settings of all |
| Exporter.Header | internal/compose/compose.go:497-530 | the header lists every key the file leaves to the user, each once, and of each setting the first |
| Exporter.HeaderIsComplete | internal/compose/compose.go:102-144 | every variable Compose looks up in any scalar of the file is on a header line, and once every line without a value is filled in no scalar is refused |
| Exporter.SecretsAreNeverWritten | internal/compose/compose.go:327-359 | entries that differ only in their secrets' defaults export to the same block |
| CgroupWalk.EnterDirectory | internal/activity/procnet.py:466-477 | one inspected directory is counted, recorded when it belongs to the container, and queued or marked |
| CgroupWalk.ReadEntries | internal/activity/procnet.py:459-477 | the loop over one directory's entries, with its stop at the directory limit |
| CgroupWalk.CgroupIds | internal/activity/procnet.py:435-482 | the whole walk with its reasons: not cgroup v2, no such container, partial, or complete |
| CgroupWalk.EveryIdIsOwned | internal/activity/procnet.py:435-482 | every id returned is that of a directory at or below one whose name contains the container id as a substring, whatever the limits and read failures |
| CgroupWalk.CompleteOrSaysSo | internal/activity/procnet.py:435-490 | when no reason is reported, nothing below a directory that was found is missing, whatever cannot be read outside the container's directories |
| CgroupWalk.ExactWithinLimits | internal/activity/procnet.py:435-490 | a readable tree within the limits gives exactly the ids of the directories at or below one whose name contains the container id, and with a directory to spare the reason is exact too |
| CgroupWalk.HoldsIsContains | internal/activity/procnet.py:469-471 | the name test is the substring test, wherever the id stands |
| CgroupWalk.OwnedIsBelow | internal/activity/procnet.py:435-482 | what the container owns, said by names and the tree alone |
| CgroupWalk.ScopeIsFound | internal/activity/procnet.py:435-482 | the scope systemd names after a container is found |
| CgroupWalk.ContainerIdIsHex | internal/activity/procnet.py:447-449 | a container id is sixty-four lower-case hexadecimal digits |
| CgroupWalk.WalkIsBounded | internal/activity/procnet.py:435-482 | no directory below the depth limit is looked at, and no more ids than the directory limit are returned |
| CgroupWalk.MatchesAreNotLost | internal/activity/procnet.py:459-482 | of a directory the walk comes to read, every entry whose name contains the id is found or the walk knows it is partial |
| Netlink.Unpack | internal/activity/procnet.py:359-361 | a little-endian field, read inside the buffer |
| Netlink.NextFrame | internal/activity/procnet.py:359-364 | one message header: the message and where the next begins, or bytes that are not netlink |
| Netlink.NextAttr | internal/activity/procnet.py:386-393 | one attribute and where the next begins, or no more whole attributes |
| Netlink.ReadCgroup | internal/activity/procnet.py:385-394 | the attribute loop finds the id the last cgroup attribute names |
| Netlink.ReadSock | internal/activity/procnet.py:374-400 | one socket from one message body |
| Netlink.ReadError | internal/activity/procnet.py:365-371 | the errno a closing message carries |
| Netlink.ParseDiag | internal/activity/procnet.py:348-401 | the moving-offset loop computes the reading of the datagram, ends on any bytes and stays inside the buffer |
| Netlink.AttrsRoundTrip | internal/activity/procnet.py:385-394 | any attributes are read back exactly as they were laid out |
| Netlink.FoldedIsLast | internal/activity/procnet.py:385-394 | reading attributes front to back finds the last that names a cgroup |
| Netlink.ReadFrame | internal/activity/procnet.py:359-364 | a laid-out message is read back, and the reading goes on behind its padding |
| Netlink.DumpRoundTrip | internal/activity/procnet.py:348-401 | reading the encoding of any sockets, with messages to be skipped between them and anything behind them, gives exactly those sockets in order, each with its own cgroup id |
| Netlink.OpenDatagram | internal/activity/procnet.py:348-401 | a datagram that holds only sockets leaves the dump open |
| Netlink.ClosedDatagram | internal/activity/procnet.py:348-401 | a closing message reports its errno, and whether the table changed meanwhile |
| Netlink.OddEnd | internal/activity/procnet.py:364-371 | a closing message without a number is a success for DONE and an error for ERROR; a positive number is an error for ERROR alone |
| Netlink.GarbledDatagram | internal/activity/procnet.py:359-363 | bytes that cannot be a message end the reading with -1 after the sockets before them; fewer than a header leave the dump open |
| Netlink.Ipv4ReadsBack | internal/activity/procnet.py:341-345 | an IPv4 address reads back from an IPv4 socket and from an IPv6 socket that maps it |
| Netlink.Ipv6ReadsBack | internal/activity/procnet.py:341-345 | any other IPv6 address reads back whole |
| Netlink.TcpStatesAre | internal/activity/procnet.py:33-44 | which state each kernel code stands for |
| Netlink.UdpHasPeer | internal/activity/procnet.py:395-399 | a UDP socket counts as established exactly when it has a peer port and a peer address that is not all zero |
| Netlink.FilterKeeps | internal/activity/procnet.py:421-432 | the filter keeps every socket that passes as often as it occurs, and no other |
| Netlink.DiagDump | internal/activity/procnet.py:404-432 | a dump not marked truncated ran to the kernel's own end uninterrupted, and no socket of it was left out but by the filter; a failed one says with which errno |
| Snapshots.Summarise | internal/activity/procnet.py:179-239 | every row says in how many snapshots its key appeared and in which states; maxima, ports and totals are those of the snapshots; the kept rows are the first in order |
| Snapshots.FoldSnapshot | internal/activity/procnet.py:197-225 | one snapshot added to the two tables and the running counts |
| Snapshots.SightSocket | internal/activity/procnet.py:212-224 | one connected socket is counted under exactly one key of one table |
| Snapshots.SortRows | internal/activity/procnet.py:227-228 | the rows of a table, most seen first and then by key |
| Snapshots.TallyIsOrderFree | internal/activity/procnet.py:179-239 | any count over the snapshots is the same for any order of them and of the sockets in each |
| Snapshots.SummaryIsOrderFree | internal/activity/procnet.py:179-239 | so is the whole summary, rows and their order included |
| Snapshots.TotalCountsKeys | internal/activity/procnet.py:179-239 | the total counts every key before the caps of forty dialled and twenty received rows, and a summary is marked exactly when they drop one |
| Snapshots.OrderMeans | internal/activity/procnet.py:227-228 | most seen first; dialled rows seen alike by protocol, address and port, received ones by port and address |
| Snapshots.OrderedUnique | internal/activity/procnet.py:227-228 | there is only one ordered list of the same rows |
| Snapshots.CapsKeepTheMostSeen | internal/activity/procnet.py:237-238 | a row the caps drop was seen no more often than any row they keep |
| Snapshots.RowMeans | internal/activity/procnet.py:179-239 | a row counts the snapshots that hold a socket of its address and port, received on a port some snapshot listens on or else dialled |
| Snapshots.StatesMean | internal/activity/procnet.py:179-239 | a dialled row counts, of every state, its sockets over all snapshots; a received one has no states |
| Snapshots.PeakIsMost | internal/activity/procnet.py:179-239 | a maximum is the most of any one snapshot |
| Snapshots.MaximaMean | internal/activity/procnet.py:206-222 | what the three maxima count |
| ProxyCap.ThresholdFits | internal/proxies/proxies.go:384-406 | within the form's bounds the threshold product fits 64 bits and is never rounded to nothing |
| ProxyCap.DropStale | internal/proxies/proxies.go:471-475 | exactly the baselines seen less than thirty-one days ago are kept |
| ProxyCap.Account | internal/proxies/proxies.go:443-485 | one pass: the bytes counted, the counters kept, and whether the cap was crossed now |
| ProxyCap.ReleaseIsLift | internal/proxies/proxies.go:505-526 | an edit asks for the copies to start exactly when it lifts a stop |
| ProxyCap.CapOverRuns | internal/services/proxies.go:641-718 | over any run of passes, resets and edits a stop has its cause in bytes and percent, the message describes the cap in force, crossings and lifts alternate, and after a pass a proxy at its threshold is stopped |
| ProxyCap.ReachedIsAtCap | internal/proxies/proxies.go:384-406 | the truncated threshold is reached exactly when the percentage of the cap's whole bytes is used up but for less than one byte |
| ProxyCap.StopsAtPercent | internal/proxies/proxies.go:384-485 | after any run that ends in a pass the copies are stopped exactly when that percentage of that many gigabytes is used |
| ProxyCap.PassSetsTheStop | internal/proxies/proxies.go:443-503 | a pass only ever sets the stop, at once, dated and described |
| ProxyCap.EditKeepsTheStop | internal/proxies/proxies.go:505-531 | an edit keeps the stop exactly while the new cap is used up, and clears the count exactly when a cap is turned on |
| ProxyCap.ResetDueExactly | internal/proxies/proxies.go:543-563 | a reset is due exactly when some reset day lies after the period's start and not after today, over month and year ends |
| ProxyCap.ResetDueWithoutPeriod | internal/proxies/proxies.go:545-562 | no reset is due without a reset day, and one is when the period never began |
| ProxyCap.ResetClearsDue | internal/proxies/proxies.go:533-563 | after a reset none is due until the next reset day |
| TrafficLedger.TotalAppend | internal/proxies/proxies.go:408-429 | what the tunnels moved grows by the new reading less the last one of the same life |
| TrafficLedger.TallyOneConserves | internal/proxies/proxies.go:408-470 | one reading adds to the used bytes exactly what its tunnel moved since its last reading, but for a restart that hides itself |
| TrafficLedger.MissedOnlyWhenHidden | internal/proxies/proxies.go:408-429 | a restart is missed only when a start time is missing and a counter is already past the old one |
| TrafficLedger.TrafficConserved | internal/proxies/proxies.go:443-541 | over any honest run, used bytes plus those cleared by resets plus those of hidden restarts are the sum, over every tunnel life, of its last reading |
| TrafficLedger.HistoryIsComplete | internal/proxies/proxies.go:443-477 | the history the sum is taken over holds every complete reading, in order |
| TrafficLedger.NeverDoubleCounted | internal/proxies/proxies.go:443-541 | with every start time known the sum is exact; without, it is never exceeded |
| TrafficLedger.LedgerRunsTheProxy | internal/services/proxies.go:641-718 | the ledger's runs are the runs of the proxy whose cap is followed |
| ActivitySwitch.App.SetActivityEnabled | activity_app.go:217-269 | the switch, the generation, the pending delete and the rows after switching, for a save or a delete that fails as well |
| ActivitySwitch.App.DeleteRows | activity_app.go:272-278 | what a delete that succeeds or fails leaves |
| ActivitySwitch.App.DeleteActivityData | activity_app.go:281-289 | the shared state after an asked-for delete |
| ActivitySwitch.App.RetryDelete | activity_sampler.go:62-74 | the shared state after a retry of a pending delete |
| ActivitySwitch.App.StartSampler | activity_sampler.go:116-118 | a sampler that starts with the switch off owes a delete |
| ActivitySwitch.App.StoreRound | activity_sampler.go:210-226 | the shared state after a finished round: nothing for an overtaken one |
| ActivitySwitch.App.RaiseSpike | activity_sampler.go:305-352 | the shared state after a spike: nothing for an overtaken round |
| ActivitySwitch.OptOutHolds | activity_sampler.go:41-82 | in every reachable state, "started, off and no delete pending" means no address row remains, failed deletes, retries and crashes included |
| ActivitySwitch.NothingKeptWhileOff | activity_app.go:217-269 | while the switch is off no step adds a sample, an address or an alert |
| ActivitySwitch.OvertakenRoundIsMute | activity_sampler.go:41-58 | once a delete has happened since a round began, whatever came between, the round changes nothing |
| ActivitySwitch.HonestRoundStores | activity_sampler.go:210-226 | a round that nothing has overtaken stores exactly its new samples, their addresses and, with a new sample, its alerts; a failed write stores nothing |
| ActivitySwitch.HonestSpikeIsRaised | activity_sampler.go:340-364 | a spike that nothing has overtaken raises its alerts and changes nothing else |
| ActivitySwitch.EraseEmpties | activity_app.go:281-289 | after a successful delete of all activity data nothing is stored, whatever then happens, until a new round begins |
| ActivitySwitch.SwitchMeans | activity_app.go:217-269 | what switching on and off does to the switch, the pending delete and each kind of row |
| ActivitySwitch.RetryMeans | activity_sampler.go:62-74 | a retry acts only on an owed delete while off, deletes only addresses, and settles the debt exactly when it succeeds |
| ActivitySwitch.RetryCompletes | activity_sampler.go:62-74 | the first retry that succeeds while off leaves no address and nothing pending |
| Grouping.Follow | internal/activity/activity.go:221-234 | a chain resolves exactly when it ends within eight hops, to the container at its end; no chain, however long or circular, costs more than nine lookups |
| Grouping.PlaceMeans | internal/activity/activity.go:203-254 | where an earner goes, said by its network mode, its runtime and the container its chain ends at: every outcome, exactly |
| Grouping.OwnersModeStands | internal/activity/activity.go:246-254 | a group whose owner is a member has that earner's own mode, wherever it stands in the list |
| Grouping.SampleOf | internal/activity/payload.go:238-269 | the sample shows its group's owner, members and mode, the rows in and out that the probe saw when they are an earner's own, and no rows otherwise |
| Grouping.Plan | internal/activity/activity.go:192-257 | the loop's map of groups and its fixed samples, key by key, for any lookup |
| Grouping.Share | internal/activity/activity.go:246-254 | the group is created on first use and extended through the map; no other key changes |
| Grouping.CgroupKeysAreTaken | internal/activity/activity.go:215-254 | with unique ids and a consistent lookup nobody else lands on the key of a cgroup group |
| Grouping.GroupsAreWhole | internal/activity/activity.go:192-257 | a group holds exactly the earners under its key, in order, so none is overwritten; a cgroup group holds its one owner, and a namespace owner joins nobody |
| Grouping.GroupIsFounded | internal/activity/activity.go:192-257 | a group's kind, owner, mode and whether its owner is an earner are those its first member brings |
| Grouping.FixedAre | internal/activity/activity.go:192-240 | the samples without a probe are exactly the earners that stand alone, each with its reason |
| Grouping.EveryoneIsPlaced | internal/activity/activity.go:192-257 | every earner that is not a probe is counted once, as a fixed sample or under one key |
| Grouping.Collect | internal/activity/round.go:107-153 | the probes fill one slot each, whatever order they finish in |
| Grouping.Round | internal/activity/round.go:94-154 | before the caps there is one sample per fixed earner and per group, each group's sample in its own slot, and together they count every earner that is not a probe exactly once |
| RowBudget.Window.Fit | internal/activity/payload.go:271-289 | the samples kept, and of each its first outbound and then inbound rows that still fit, marked exactly when a row was lost |
| RowBudget.TrimOne | internal/activity/payload.go:278-287 | one sample against what is left of the budget |
| RowBudget.KeepsWhatFits | internal/activity/payload.go:271-289 | the first samples keep exactly as many rows as fit under the cap, and nothing is dropped while there is room |
| RowBudget.WindowIsBounded | internal/activity/payload.go:271-289 | sixty-four samples and four hundred rows at most, fewer only when there are no more |
| RowBudget.NothingLostInSilence | internal/activity/payload.go:278-287 | a sample keeps its first rows, inbound ones only with all its outbound ones, and is marked exactly when it lost some or was marked before |
| RowBudget.FitIsIdempotent | internal/activity/payload.go:271-289 | fitting a fitted window changes nothing |
| RowBudget.FitIsDetermined | internal/activity/payload.go:271-289 | no two windows meet the specification |
| Deltas.State.Apply | internal/activity/activity.go:356-391 | what one reading reports and what is kept for the next |
| Deltas.State.Forget | internal/activity/activity.go:338-343 | only the named owner is dropped |
| Deltas.State.Keep | internal/activity/activity.go:345-354 | exactly the owners not listed are dropped |
| Deltas.State.Reset | internal/activity/activity.go:331-336 | everything is dropped |
| Deltas.StateRefinesLog | internal/activity/activity.go:331-391 | over any run the map holds the last reading of a log of all that happened |
| Deltas.LastReadingStands | internal/activity/activity.go:331-391 | that reading is one that nothing concerning its owner came after |
| Deltas.DeltaIsNeighbourDifference | internal/activity/activity.go:356-391 | every reported delta is the difference to the reading of the same owner and namespace right before it, with nothing dropped between and no counter going back |
| Deltas.ReportedExactly | internal/activity/activity.go:356-391 | a delta is reported exactly when the reading before it is of the same owner and namespace, at most ten minutes old, with no TCP counter gone back; a UDP one when both readings have it as well |
| Deltas.SecondsAreTenths | internal/activity/activity.go:382-383 | the seconds reported are the time between, to the nearest tenth |
| Deltas.DifferenceFits | internal/activity/activity.go:356-391 | the 64-bit difference is the true one, and non-negative, exactly when the true one fits |
| Deltas.ReportsTelescope | internal/activity/activity.go:356-391 | the reports of an uninterrupted stretch add up to last minus first |
| RateLimiter.Prune | fleet_server.go:106-111 | in-place compaction keeps exactly the later hits, in order, in the front of the same array |
| RateLimiter.FleetRateLimiter.Allow | fleet_server.go:87-118 | the verdict and the new contents of the map, from the old contents |
| RateLimiter.FleetRateLimiter.Live | fleet_server.go:106-111 | pruning one address leaves the others' contents alone |
| RateLimiter.FleetRateLimiter.Record | fleet_server.go:112-117 | a hit is appended exactly when there is room |
| RateLimiter.FleetRateLimiter.Sweep | fleet_server.go:91-105 | the sweep prunes every address and drops the empty ones |
| RateLimiter.SweepAbove1024 | fleet_server.go:91-105 | only above 1024 addresses are other addresses touched, and then exactly those with a live hit stay |
| RateLimiter.LimiterIsTheLog | fleet_server.go:75-118 | after any calls, a call no earlier than all before it is accepted exactly when an append-only log of accepted hits has room in its window; an earlier one at least then |
| RateLimiter.NoWindowOverflows | fleet_server.go:75-118 | for calls in order of time no window of that width ever holds more than the limit of one address's accepted hits |
| RateLimiter.OverrunExactlyWhenLate | fleet_server.go:75-118 | for any limit of two or more, any window, address and times: calls up to one time can lead to a call being accepted that the log refuses if and only if that call's time is earlier |
| RateLimiter.OutOfOrderAcceptsMore | fleet_server.go:75-118 | with the server's sixty hits a minute, a call one second late can overrun the limit |
| Enrolment.FleetServer.Heartbeat | fleet_server.go:254-316 | the locked part of the handler: the device's key state and the answer, under every failure of a store call |
| Enrolment.Upstream.Receive | upstream_client.go:178-190 | the client's key in memory and on disk after an answer and a save that may fail |
| Enrolment.RunSafe | fleet_server.go:254-316 | over any run with lost requests and answers, failed writes and saves, restarts and strangers, who may hold any superseded key, a key the client holds is the stored one and the client is never rejected |
| Enrolment.CutoverIsFinal | fleet_server.go:327-353 | once confirmed, a device keeps its key and the shared key is refused for it |
| Enrolment.TwoCleanBeatsConfirm | upstream_client.go:164-190 | from any reachable state two undisturbed heartbeats complete the enrolment |
| Enrolment.SecondSenderTakesOver | fleet_server.go:327-353 | before confirmation a second sender with the shared key gets its own key stored, and the client is then rejected exactly when it held a key |
| Enrolment.SecondSenderInstance | fleet_server.go:327-353 | one heartbeat leads to a safe, unconfirmed world in which that rejects the client |
| Importers.SplitLines | internal/importers/read.go:98-125 | the loop gives the lines of the split |
| Importers.JoinOfSplit | internal/importers/read.go:98-125 | the lines with their terminators rebuild the text |
| Importers.SplitOfJoin | internal/importers/read.go:98-125 | any lines free of terminators, joined with terminators, are split back into themselves, so the split is the only one |
| Importers.SplitCutsAtBoundaries | internal/importers/read.go:98-125 | no line holds a boundary, a return and a newline count as one, and only the last line may lack one |
| Importers.LinesAreTheText | internal/importers/read.go:98-125 | the lines, with one boundary or nothing behind each, are the text |
| Importers.StripInlineComment | internal/importers/read.go:147-157 | the text before the first ` #` |
| Importers.ReadEnvValue | internal/importers/read.go:159-215 | the quoting cases compute `Reading`, the function the theorems are about |
| Importers.SingleQuotedReads | internal/importers/read.go:172-184 | a single-quoted value is accepted, as it stands, exactly when only spaces and a comment follow |
| Importers.DoubleQuotedReads | internal/importers/read.go:185-204 | a double-quoted value without a backslash is accepted exactly when it holds no dollar sign or backtick and only spaces and a comment follow |
| Importers.UnclosedIsRefused | internal/importers/read.go:172-204 | a quote that is never closed is refused |
| Importers.BareReads | internal/importers/read.go:206-214 | a bare value is its text up to the comment and trailing spaces, refused exactly for the characters its reader would act on |
| Importers.ShellSound | internal/importers/read.go:159-215 | a value accepted for a shell-read file is what POSIX quoting makes of the line (no word for an empty value, else exactly one word, the value, with nothing expanded and no operator) if and only if every space outside the accepted text, up to the comment, is a space or a tab, and no newline stands outside quotes |
| Importers.OtherBlanksDiffer | internal/importers/read.go:167-209 | so any other blank after a plain word is dropped here and kept by the shell |
| Importers.SingleQuoteRoundTrip | internal/importers/read.go:172-184 | a value without a single quote, put in single quotes, reads back as itself in both modes |
| Importers.PlainRoundTrip | internal/importers/read.go:206-214 | a plain word reads back as itself in both modes |
| Rating.ParseRatingRules | internal/catalog/rating.go:97-155 | the rules are accepted exactly when every stated condition holds |
| Rating.CheckBands | internal/catalog/rating.go:115-128 | comparing neighbours is enough for bands that fall throughout |
| Rating.CheckCriteria | internal/catalog/rating.go:105-114 | criteria are accepted exactly when there are some, all named and titled, with distinct keys |
| Rating.Tally | internal/catalog/rating.go:399-416 | the score, the unknowns and which criteria are poor |
| Rating.BestPoints | internal/catalog/rating.go:402-404 | the most points any verdict is worth |
| Rating.FirstBand | internal/catalog/rating.go:426-432 | the first band whose threshold the exact share meets, else F |
| Rating.GradeService | internal/catalog/rating.go:399-460 | the grade, and the ceilings reported: those that hold and lower what the score earned |
| Rating.GradeIsTheWorst | internal/catalog/rating.go:441-460 | the grade is the worse of the band and the ceilings that hold |
| Rating.GradeIs | internal/catalog/rating.go:399-460 | the grade is the letter the score earned or the worst ceiling that applies, by the verdicts themselves; a ceiling is reported exactly when it applies and is worse |
| Rating.ScoreIsCounted | internal/catalog/rating.go:405-416 | the score is each verdict's points as often as it was given |
| Rating.ScoreEarns | internal/catalog/rating.go:417-432 | the letter earned is that of the first band the share of the best score meets |
| Rating.HoldsIsApplies | internal/catalog/rating.go:443-452 | when each ceiling applies: prohibited, a poor record, too few verdicts |
| Rating.CeilingOrderIsIrrelevant | internal/catalog/rating.go:441-460 | listing the ceilings in another order changes no grade |
| Rating.GradeIsMonotone | internal/catalog/rating.go:399-460 | raising any verdicts never worsens the grade, when points follow the verdicts and letters never improve down the bands a share can reach |
| Rating.ImprovingBandsPunish | internal/catalog/rating.go:97-155 | accepted bands with a letter that improves within reach punish some raised verdict, under points that follow the verdicts |
| Rating.UnorderedPointsPunish | internal/catalog/rating.go:97-155 | accepted points worth less for a better verdict punish it, under bands that never improve |
| Rating.PointsDecide | internal/catalog/rating.go:97-155 | accepted points never punish a raised verdict, under any accepted criteria, ceilings and non-improving bands, if and only if they follow the verdicts |
| Rating.BandsDecide | internal/catalog/rating.go:97-155 | accepted bands never punish a raised verdict, under any accepted criteria, ceilings and points that follow the verdicts, if and only if no letter improves down the bands a share can reach |
| Accrual.UsdIsLinear | internal/exchange/exchange.go:217-235 | conversion to USD is one positive factor, known or not whatever the amount |
| Accrual.FromUsdIsLinear | internal/exchange/exchange.go:237-254 | so is conversion from USD |
| Accrual.ToDisplayBy | internal/exchange/exchange.go:217-264 | a figure in the display currency is the product with both factors, and unknown without either |
| Accrual.Collect | app.go:742-757 | every platform's balances by day, the last row of a day standing, and its days in order |
| Accrual.LastRowStands | app.go:742-757 | a day's balance is that of its last row, and the currency that of the last row |
| Accrual.OnlyItsRows | app.go:742-757 | a platform has no days but those of its own rows |
| Accrual.AsOf | app.go:759-774 | the loop finds the balance on the latest collected day on or before the day asked for, and none exactly when there is no such day |
| Accrual.PlatformDelta | app.go:776-802 | what the platform shows more of on the later day, nothing without both figures |
| Accrual.DeltaIsTheRise | app.go:776-802 | what a platform earned is the rise of its own balance between the latest days collected, in the display currency, and nothing when it fell or a rate is missing |
| Accrual.NothingWithoutBalances | app.go:776-802 | nothing is earned without a balance on or before either day |
| Accrual.SumOf | app.go:803-810 | the sum over all platforms |
| Accrual.Summarise | app.go:871-897 | the day, month and each of the thirty daily figures of one summary |
| Accrual.DeltaIsSubadditive | app.go:776-802 | accrual over two periods is at least the accrual over both at once |
| Accrual.DeltaIsAdditive | app.go:776-802 | with a baseline on the first day and balances that never drop, the parts add up to the whole |
| Accrual.PeriodAtMostItsDays | app.go:871-897 | a longer period never shows more than its days together |
| Accrual.MonthAtMostDaily | app.go:882-897 | on each of a month's first thirty days its figure is at most the thirty daily figures together |
| Accrual.ThirtyFirstDayIsMissed | app.go:882-897 | on the thirty-first the first day's accrual is in the month's figure alone |

## Left out

- Interpolation.ExportPreservesMeaning: Compose's defaults that themselves hold `${...}` are not expanded, because the exporter never writes one; the well-formed strings are those whose `$` all start closed tokens.
- Exporter.Generate: the checks on architecture, image and device requests are one predicate that says whether a service can run; ports, volume names, images and logging are fixed scalars taken to hold no `$`.
- Exporter.ServiceBlock: image, names, labels, ports, devices and limits are one list copied as it is.
- Exporter.Unique: the keys come in the order first seen; sorting them is not modelled.
- Exporter.UniqueSettings: the settings come in the order first seen; sorting them is not modelled.
- Exporter.Header: the wording and order of the lines are not modelled, nor that a line is superfluous for a key asked for and later pinned that no volume uses.
- CgroupWalk.CompleteOrSaysSo: holds when every entry below the container's directories can be inspected and those of its directories at the depth limit can be listed; the walk does not report the others.
- CgroupWalk.CgroupIds: the tree does not change during the walk, and the container id is compared as given, without lower-casing.
- Netlink.ParseDiag: fields are little-endian, the native order of the machines the helper runs on; addresses are kept as bytes, not rendered as text.
- Netlink.DiagDump: `keep` is a pure test; opening, sending and timing out are not modelled, a timeout being the end of the received datagrams.
- Snapshots.Summarise: a loopback address is known as such; the list of open ports is a set and not cut to its lowest twenty.
- ProxyCap.Account: the exit address fields are not modelled, and used bytes are unbounded naturals rather than 64-bit ones.
- TrafficLedger.TrafficConserved: counters and start times are honest, and no gap between two readings of a tunnel is longer than a baseline is kept.
- ActivitySwitch.OptOutHolds: the switch is written by SetActivityEnabled alone (a concurrent save of the whole settings is outside), and a recorded round asks for the switch inside its own transaction.
- ActivitySwitch.App.SetActivityEnabled: the reset of the counters kept between rounds is not part of the switch (`Deltas` models those counters).
- ActivitySwitch.App.DeleteRows: samples, addresses and alerts are modelled; the hourly totals table is not.
- ActivitySwitch.App.DeleteActivityData: the same holds here.
- ActivitySwitch.App.RaiseSpike: when a spike is one, and how long the next must wait, are not modelled.
- Grouping.Plan: groups are values in the map where the source appends through pointers that only the map holds; the order of a sample's member list is not kept.
- Grouping.Round: probing, budgets of time and leftover probes are one reading per group; the final sort by container name is not modelled, and the caps are modelled on any order.
- Grouping.SampleOf: the status, reason and counters of a sample are not modelled.
- RateLimiter.OverrunExactlyWhenLate: the limit is at least two, as the server's sixty is; with one, only the sweep above 1024 addresses can drop the hit that refuses the late call.
- RateLimiter.FleetRateLimiter.Allow: calls are made one at a time, as the lock makes them.
- Enrolment.RunSafe: one client with one request alive at a time, no deletion of the device, an injective hash and fresh random keys; a failed save leaves the disk as it was.
- Importers.ShellSound: a text is a sequence of characters that is already valid UTF-8.
- Rating.GradeService: validation of a rating block, the listed pros, cons and notes, and the rounded percentage shown are not modelled; shares are exact.
- Accrual.Summarise: days are numbers, in the order of the ISO dates; amounts are exact reals, rates are fixed during one summary, and the percentage changes and point balances are not modelled.
- Docker, HTTP, SQLite, the keychain, the file system, processes and the user interface: foreign code, replaced by values that say what a call returned.
- The earnings collectors, YAML and JSON decoding, regular expressions: thin logic over libraries.
- The rest of the importers (tool detection, JSON documents, state files, the map of keys): easy once a value is read.
- Address classification, alert rules and label clipping: branches without state.
