# TIB/Rendezvous example programs, modelled in Dafny

This project models the C example programs shipped with TIB/Rendezvous.
Each program's observable decisions are modelled and proved. Those decisions are:

- which command lines it accepts and what values it keeps from them;
- which library-call failures end the process, and with which exit status;
- what each callback does to the program's counters and messages;
- which lines a callback prints, and when;
- how a send or dispatch loop ends.

The programs modelled are:

- the request/reply benchmark: `tibrvclient`, `tibrvserver`, and the virtual-circuit client `tibrvvcclient`;
- the publisher `tibrvsend`;
- the listeners `tibrvlisten` and `tibrvvectorlisten`, plus `tibrvvectorlistentester`, which feeds them;
- the fault-tolerance monitor `tibrvftmon`;
- the certified-delivery listener `tibrvcmlisten` and the distributed-queue listener `tibrvdqlisten_old`.

Every call into the Rendezvous library is an input of the model: the `Status` it returns (`Ok`, `NotFound`, `Timeout` or another failure). A loop's calls are a function from the iteration number to a status. `exit(n)` and `usage()` are results of the model (`Flow.Exit(n)`, `Scan.Usage(reason)`). `tibrv_u32` and `tibrv_u16` arithmetic is reduction modulo 2^32 and 2^16.

Modules:

- `RvStatus` (`status.dfy`): statuses and the first-failure chain `if (rc == TIBRV_OK) rc = step();`, with its algebra. Also the casts to `tibrv_u32`/`tibrv_u16`, the status-line test `(n / f) * f == n`, and the first failure of a loop that stops at one.
- `Argv` (`argv.dfy`): the `getParameters`/`get_InitParms` pair scanner that most programs carry a copy of. It is written once with the flag table, the minimum argument count and the help check as parameters. The module also holds the `strrchr` program-name stripping of the benchmark programs.
- `Wire`, `BenchArgs`: the benchmark messages' numeric fields, and the command line shared by the two benchmark clients.
- One module per program: `VcClient`, `Client`, `Server`, `Send`, `Listen`, `VectorListen`, `VectorTester`, `FtMon`, `CmListen`, `DqListen`.
- `Certified`: the message callback common to `tibrvcmlisten` and `tibrvdqlisten_old`.

The listener loops of `tibrvcmlisten` (tibrvcmlisten.c:397-416) and `tibrvdqlisten_old` (tibrvdqlisten_old.c:430-449) are the one of `tibrvlisten`, one listener per subject with status 2 at the first failure, and are modelled by `Listen.CreateListeners`.

Callbacks that update program state are methods of a class holding that state:

- `VcClient.VcSession` for `vcRec` and the globals its callbacks read;
- `Client.ClientRun` for the client's globals;
- `Server.ServerProcess` for the server's globals;
- `FtMon.GroupMonitor` for the function-static count of `monCB`.

Loops are `while` loops, proved against a function of their inputs.

Where the code and its documentation disagree, the model follows the code:

- `tibrvvcclient`'s `serverResponse` calls `allDone` on every reply that leaves `msgs_in >= requests`. No guard limits it to one call, so the completion sentinel can be sent more than once. `VcClient.VcSession.ServerResponse` states exactly that.
- `tibrvvectorlistentester`'s `-messages` advances the argument index by one, not two. Its `++i >= argc` check can never fire.
- `tibrvvectorlisten` scans every argument and rejects anything that is not a transport flag with a value. It declares no minimum argument count and does not look for subjects.

## Model

| member | source | states |
|---|---|---|
| RvStatus.ToU32 | tibrvvcclient.c:218 | the cast to `tibrv_u32` is below 2^32, is the identity on values that fit, and differs from its input by a multiple of 2^32 |
| RvStatus.ToU16 | tibrvdqlisten_old.c:298 | the cast to `tibrv_u16` is below 2^16, is the identity on values that fit, and differs from its input by a multiple of 2^16 |
| RvStatus.Inc32 | tibrvvcclient.c:450 | `n++` on a `tibrv_u32` counter adds one, and wraps to 0 from 2^32 - 1 |
| RvStatus.AddU32 | tibrvserver.c:236-237 | adding two values already cast to `tibrv_u32` wraps to the cast of their exact sum |
| RvStatus.StatusDueIffMultiple | tibrvvcclient.c:454-455 | the status-line test `(n / f) * f == n` under `f > 0` holds exactly when `f` is positive and divides `n` |
| RvStatus.Chain | tibrvclient.c:417-438 | a chain of steps, each run only after every earlier one succeeded, returns `Ok` exactly when all succeed, and otherwise the status of a failing step with only successes before it |
| RvStatus.ChainCons | tibrvclient.c:425-437 | a failing first step decides the chain; a successful one passes the decision to the rest |
| RvStatus.ChainStopsAtFirstFailure | tibrvclient.c:496-535 | steps after the first failure have no influence on what the chain returns |
| RvStatus.ChainSkipsOk | tibrvclient.c:496-535 | steps that all succeeded leave the decision to the steps after them |
| RvStatus.ChainConcat | tibrvclient.c:604-624 | two chains run in sequence are the first one's failure, or the second one's result |
| RvStatus.ChainOfChains | tibrvclient.c:604-645 | helpers that each run their own chain, chained by `main`, return the first failure among all their calls |
| RvStatus.MultiplesExactlyOnce | tibrvvcclient.c:722-745 | as a counter runs from 1 to `n`, status lines are printed at each multiple of `status_frq` exactly once, in increasing order, and nowhere else |
| RvStatus.FirstFailure | tibrvvcclient.c:722-735 | the index where a stop-at-failure loop stops: every earlier call succeeded, and the call there failed unless the loop ran to the end |
| RvStatus.SetupFlow | tibrvlisten.c:165-236 | a setup that exits with status 1 after any failing step carries on exactly when every step succeeded |
| Argv.LastIndexOf | tibrvvcclient.c:163-165 | `strrchr` finds nothing exactly when the character is absent, and otherwise finds an occurrence with none after it |
| Argv.StripProgramName | tibrvvcclient.c:162-180 | the kept program name is a suffix of `argv[0]`, and is all of it when no separator occurs |
| Argv.StripAtFirstPresentSeparator | tibrvvcclient.c:162-180 | when a separator is the first in order that occurs, the kept name is what follows its last occurrence, and contains none of it |
| Argv.BracketOnlyStrippedByClients | tibrvserver.c:116-130 | the clients strip a VMS-style `[dir]name` at `]`; the server, which has no `]` case, keeps the whole name |
| Argv.RunScanner | tibrvlisten.c:102-140 | the scanner loop computes exactly the reference scan: count check, help check, then the flag/value pair loop |
| Argv.ScanStops | tibrvlisten.c:116-139 | the pair loop stops at an index of the starting parity, at most `argc`, on an argument that is not a dash flag with a value, having consumed only known flags |
| Argv.ScanRejectsUnknown | tibrvlisten.c:116-139 | the first unknown dash flag that has a value after it is reported to `usage()` |
| Argv.ScanUsageIsUnknownFlag | tibrvlisten.c:116-139 | the pair loop calls `usage()` only at an unknown dash flag that has a value after it, reached after known pairs |
| Argv.LastValueIsLastOccurrence | tibrvvcclient.c:193-226 | a flag's reference value is absent exactly when no pair names it, and otherwise is the value of its last occurrence |
| Argv.LastValueCons | tibrvvcclient.c:193-226 | an earlier pair's value survives only when no later pair names the same flag |
| Argv.ScanLastWins | tibrvvcclient.c:193-226 | after the pair loop every flag holds the value of its last occurrence, or the value it had before the loop |
| Argv.ScannerResult | tibrvlisten.c:102-140 | a successful scan from index 1 stops at an odd index no further than `argc`, and every flag holds its last value |
| Argv.ScannedValue | tibrvlisten.c:102-140 | the value recorded for one flag is its last occurrence among the pairs scanned |
| BenchArgs.GetParameters | tibrvvcclient.c:150-227 | the clients' `getParameters` strips the program name at `\`, `/` or `]` and scans the transport flags, `-interval` and `-status` with a help check |
| BenchArgs.Configure | tibrvvcclient.c:208-219 | `-status` is `atol` cast to `tibrv_u32`, 0 when absent; `-interval` is `atof`, 0 when absent; the request count is as below |
| BenchArgs.RequestCount | tibrvvcclient.c:557-561 | the request count is the first argument left over, through `atoi` and the cast to `tibrv_u32`, or 10000 when none is left |
| VcClient.CreateServerConnectionIsChain | tibrvvcclient.c:274-369 | `createServerConnection` returns the first failure among its calls, the virtual-circuit creation excepted |
| VcClient.ConnectVcStatusIgnored | tibrvvcclient.c:349-352 | the status of `CreateConnectVc` is overwritten before it is tested, so its failure alone does not fail the connection |
| VcClient.SetupExitsUnlessAllOk | tibrvvcclient.c:564-711 | setup exits with status 1 exactly when a tested step fails; the wait queue's creation status is never tested |
| VcClient.Filled | tibrvvcclient.c:232-267 | a filled request holds the drawn `x` and `y` modulo 2^32, and a sum equal to the drawn `x + y` modulo 2^32 |
| VcClient.VcSession.constructor | tibrvvcclient.c:590-597 | the record starts with nothing sent or received, no timer, and the request addressed to the request subject |
| VcClient.VcSession.SetMsgData | tibrvvcclient.c:232-267 | `set_msg_data` writes `x`, `y` and their 32-bit sum, and any failed update exits with status 1 |
| VcClient.VcSession.AllDone | tibrvvcclient.c:392-403 | `allDone` readdresses the request to `TEST.COMPLETED` and sends one sentinel |
| VcClient.VcSession.ServerResponse | tibrvvcclient.c:444-465 | each reply is counted modulo 2^32; a status line is printed only once all requests are sent and at multiples of `status_frq`; a sentinel is sent on every reply at or past `requests` |
| VcClient.VcSession.SendRequest | tibrvvcclient.c:722-735 | one request is counted exactly when every update and the send succeeded; otherwise the process exits with status 1 |
| VcClient.VcSession.PubReqMsg | tibrvvcclient.c:474-524 | one timer firing sends while fewer than `requests` are out, prints at multiples of `status_frq`, and destroys the timer when the count reaches `requests`; a failed destroy leaves the timer running |
| VcClient.VcSession.CreateTimer | tibrvvcclient.c:754-763 | the paced-mode timer exists exactly when its creation succeeded; otherwise the process exits with status 1 |
| VcClient.VcSession.DisconnectedVcCallback | tibrvvcclient.c:412-433 | losing the circuit marks it disconnected and always sends the sentinel, leaving the counts alone |
| VcClient.VcSession.Burst | tibrvvcclient.c:720-745 | the burst either sends all requests or exits with status 1 at the first failed attempt, with exactly the earlier attempts sent; status lines fall on the multiples of `status_frq` reached |
| VcClient.VcSession.BurstRun | tibrvvcclient.c:392-815 | after a burst that sent every request, the main thread gets an exit status exactly when a completion was signalled, by the reply that brings `msgs_in` to `requests` or by a disconnect; the status is then 0 exactly when every reply came back; with no signal, including every run with `requests == 0` and no disconnect, there is none |
| Client.StartupStopsAtFirstFailedCall | tibrvclient.c:604-645 | the setup helpers chained by `main` end with the status of the first failed library call, or `Ok` when all succeeded |
| Client.DrawStatusIsChain | tibrvclient.c:233-265 | `set_msg_data` is the chain of its two updates: `Ok` exactly when both succeed, and otherwise the first failed update's status |
| Client.LatchIsLastFailure | tibrvclient.c:539-571 | over a run of `set_msg_data` calls, `tibrv_err` holds the last failure, or its earlier value when none failed, and is never reset to `Ok` |
| Client.PubStatus | tibrvclient.c:347-355 | one paced request fails with the first failing step among the draw, the copy, the two addressings and the send |
| Client.WatchdogGivesUpOnStall | tibrvclient.c:312-331 | the watchdog gives up exactly when replies are missing and none arrived since its previous firing; two firings that see the same short count give up |
| Client.ClientRun.constructor | tibrvclient.c:594-660 | sending starts with nothing sent or received, no error, and the response queue and the watchdog running |
| Client.ClientRun.SetMsgData | tibrvclient.c:233-265 | `set_msg_data` writes each value whose update succeeded and stores a failure in `tibrv_err` |
| Client.ClientRun.ServerResponse | tibrvclient.c:274-304 | each reply on the live response queue adds one to the count, with status lines at multiples of `status_frq`; the reply reaching `requests` sets `done` and destroys the response queue |
| Client.ClientRun.TimeOut | tibrvclient.c:312-331 | the watchdog firing carries out the watchdog's decision: finish, give up with `TIBRV_TIMEOUT`, or note the count and wait again |
| Client.ClientRun.PubMsg | tibrvclient.c:338-400 | one timer firing sends while fewer than `requests` are sent and counts the request only on success; it prints and destroys the timer only on success; a failure is stored in `tibrv_err` |
| Client.ClientRun.SendMsgsCont | tibrvclient.c:539-571 | the burst stops at the first failed send and returns its status; every draw up to and including that send's is made and latched |
| Client.ClientRun.SendOne | tibrvclient.c:544-557 | one burst request drops the draw's status, and counts the send exactly when it succeeded |
| Client.ClientRun.Deliver | tibrvclient.c:274-400 | an event of a destroyed queue or timer changes nothing; a reply, a watchdog firing or a timer firing changes the globals exactly as `serverResponse`, `timeOut` or `pubMsg` does, and nothing else |
| Client.ClientRun.WaitLoop | tibrvclient.c:662-690 | the wait loop ends only when `done`, when every reply is in, or on a failure; when it ends, `main` either reports the failure it returns or reports that all replies arrived; a failure stored before the loop ends it after one round |
| Server.GetParameters | tibrvserver.c:105-173 | the server strips the program name at `\` or `/` only, and scans the transport flags and `-status` with a help check |
| Server.StatusFrequency | tibrvserver.c:160-163 | `-status` is `atol` cast to `tibrv_u32`, 0 when absent |
| Server.SetupIgnoresInbox | tibrvserver.c:350-439 | setup carries on exactly when the tested steps succeed; a failed `CreateInbox` goes unnoticed |
| Server.Sum | tibrvserver.c:236-237 | the reply's sum is the request's `x + y` modulo 2^32, and `x + y` itself when that fits |
| Server.ReplyFor | tibrvserver.c:243-311 | the reply holds the sum: alone in a new message, or added to the request's own fields |
| Server.ServerSumMatchesClients | tibrvserver.c:206-325 | the server's sum is the one the virtual-circuit client put in its request, and the 32-bit sum of the values the request/reply client drew |
| Server.RequestsIn | tibrvserver.c:451-463 | counts the rounds among the first `n` that dispatched a client request: all `n` when every round is one, none when no round is, and never more than `n` |
| Server.RepliesIn | tibrvserver.c:243-463 | the replies of the first `n` rounds are one `ReplyFor` per request that carries both fields, so never more than the requests among them |
| Server.RoundStep | tibrvserver.c:451-463 | a dispatched search adds one search and no reply; a dispatched request adds one request and, when it carries both fields, its `ReplyFor` at the end of the replies |
| Server.Inc32OfWrapped | tibrvserver.c:315 | counting one more with the 32-bit increment is the wrapped sum of the total |
| Server.ServerProcess.constructor | tibrvserver.c:398-439 | the server starts with no request counted and no reply sent, and with the search reply whose reply subject is the inbox |
| Server.ServerProcess.SearchCallback | tibrvserver.c:179-199 | a search request is answered with the prebuilt reply, whose reply subject is the inbox the requests go to; a failed send exits with status 1 |
| Server.ServerProcess.RequestCallback | tibrvserver.c:206-325 | a request without `x` or `y`, or any failing call, exits with status 1; a reply that went out stays sent; a request is counted, with a status line at multiples of `status_frq`, only when every call succeeded |
| Server.ServerProcess.Dispatch | tibrvserver.c:179-325 | a dispatched search is answered with the inbox as reply subject and touches nothing else; a dispatched request that does not exit is counted modulo 2^32 and answered with its `ReplyFor` |
| Server.ServerProcess.ServeRound | tibrvserver.c:451-463 | one dispatched round keeps the loop's account: requests counted modulo 2^32, replies equal to `RepliesIn` of the rounds so far, searches answered |
| Server.ServerProcess.Serve | tibrvserver.c:451-475 | the server dispatches until a round returns something other than `Ok`, then exits with status 0, having answered every search with the inbox as reply subject, counted every request modulo 2^32, and sent exactly the replies `RepliesIn` of the rounds dispatched, in order |
| Send.GetInitParms | tibrvsend.c:56-93 | the scanner requires three arguments and takes the transport flags, with no help check |
| Send.FlagsMayLeaveNoSubject | tibrvsend.c:66-92 | fewer than three arguments is `usage()`, but flags can use all three up and leave no subject |
| Send.Setup | tibrvsend.c:119-202 | setup exits with status 1 at any failing step, the parameter call counting only in the IPM build |
| Send.StepStatus | tibrvsend.c:219-230 | a text is published exactly when the update, the addressing and the send all succeed |
| Send.SentIsPrefixUpToFailure | tibrvsend.c:213-243 | what is published is the texts in order on the one subject, up to the first text that failed |
| Send.PublishAll | tibrvsend.c:213-243 | the publishing loop yields exactly those publications, and reports the failure that stopped it, if any |
| Send.Run | tibrvsend.c:210-254 | the texts after the subject are published, nothing when no subject is left, and the exit status is always 0 |
| Listen.GetInitParms | tibrvlisten.c:102-140 | the scanner requires two arguments and takes the transport flags, with no help check |
| Listen.TrailingDashIsSubject | tibrvlisten.c:116 | a dash argument with no value after it ends the scan and is taken as a subject |
| Listen.ScannerRejects | tibrvlisten.c:113-138 | too few arguments, or an unknown flag with a value, is `usage()` |
| Listen.Setup | tibrvlisten.c:165-236 | setup exits with status 1 at any failing step, the parameter call counting only in the IPM build |
| Listen.CreateListeners | tibrvlisten.c:244-261 | listeners are created for the subjects in order, and the first failure exits with status 2 |
| Listen.FormatShowsReplyIffPresent | tibrvlisten.c:77-82 | the printed line names a reply subject exactly when the message carries one |
| Listen.DispatchLoop | tibrvlisten.c:268-276 | one line per delivered message is printed until a dispatch fails, and `main` then returns 0 |
| VectorListen.GetInitParms | tibrvvectorlisten.c:154-192 | the scanner's `for` loop computes exactly the reference scan |
| VectorListen.ForScanAcceptsOnlyPairs | tibrvvectorlisten.c:165-191 | the scan succeeds exactly when the arguments are all transport flag/value pairs; it then ends at `argc`, with each flag holding its last value |
| VectorListen.ForScanExamples | tibrvvectorlisten.c:165-191 | no arguments gives index 1, a trailing flag lacks its value, a subject is an unknown flag, and the last value wins |
| VectorListen.StrNCpyOf | tibrvvectorlisten.c:220 | `strncpy` always fills exactly `n` characters |
| VectorListen.CStringOfTerminated | tibrvvectorlisten.c:220 | a buffer with a NUL reads as the text before the first NUL |
| VectorListen.CStringOfUnterminated | tibrvvectorlisten.c:220 | a buffer without a NUL is not a C string |
| VectorListen.StrNCpyTerminatesIffShorter | tibrvvectorlisten.c:220 | `strncpy` leaves a readable copy of the source exactly when the source is shorter than the buffer |
| VectorListen.StrNCpy | tibrvvectorlisten.c:220 | the buffer's contents become `strncpy`'s result |
| VectorListen.ClosureRec.constructor | tibrvvectorlisten.c:49-53 | a closure holds a fresh 24-character name buffer |
| VectorListen.NamesFit | tibrvvectorlisten.c:214-260 | every listener name fits its buffer with room for the NUL |
| VectorListen.NameClosures | tibrvvectorlisten.c:214-260 | the closures are set up in order, and the first failed allocation exits with status 1; each closure reads back its own name |
| VectorListen.Setup | tibrvvectorlisten.c:270-368 | setup exits with status 1 at any failing step, each listener creation included |
| VectorListen.DispatchLoop | tibrvvectorlisten.c:375-386 | the loop runs rounds until the default queue's dispatch fails, and ends with status 0; the wait queue's status is ignored |
| VectorTester.GetInitParms | tibrvvectorlistentester.c:64-107 | the scanner loop computes exactly the reference scan, with the one-step `-messages` |
| VectorTester.NoMissingValue | tibrvvectorlistentester.c:92-99 | the `++i >= argc` usage call is unreachable: the scanner fails only at an unknown flag |
| VectorTester.MessagesQuirk | tibrvvectorlistentester.c:75-99 | for every command line, `-messages` records the next argument and moves onto it: a value without a dash ends the scan there, and a value with a dash is scanned next as a flag |
| VectorTester.MessagesQuirkExamples | tibrvvectorlistentester.c:75-99 | `-messages 5 -service 7500` stops at `5` and drops the service; `-messages -service 7500` takes `-service` as the count text and then as a flag |
| VectorTester.SendCount | tibrvvectorlistentester.c:92-99 | the send count is `strtoul` of the last `-messages` value cast to `tibrv_u32`, or 1 |
| VectorTester.SubjectFor | tibrvvectorlistentester.c:172-219 | message `i` takes subject `i % 9` of the table |
| VectorTester.DefaultUnreachable | tibrvvectorlistentester.c:172-219 | the `default` subject `hello` is never chosen |
| VectorTester.CycleAt | tibrvvectorlistentester.c:172-219 | message `i` of the cycle is table entry `i % 9` |
| VectorTester.CycleRound | tibrvvectorlistentester.c:172-219 | every nine messages the cycle goes once through the table |
| VectorTester.EachEntryEquallyOften | tibrvvectorlistentester.c:172-219 | over `9 * m` messages each entry is used `m` times as often as it occurs in the table |
| VectorTester.SubjectsDistinct | tibrvvectorlistentester.c:172-219 | the nine subjects are distinct |
| VectorTester.BatchUsesEachSubjectTenTimes | tibrvvectorlistentester.c:160-219 | the batch of 90 uses each of the nine subjects exactly ten times, and nothing else |
| VectorTester.BuildBatch | tibrvvectorlistentester.c:160-219 | the batch is built only when every creation and addressing succeeds, in which case message `k` has subject `k % 9`; otherwise the process exits with status 1 |
| VectorTester.SendBatches | tibrvvectorlistentester.c:223-236 | the batch is sent `sendCount` times or until a send fails, and the result counts the successes |
| VectorTester.Setup | tibrvvectorlistentester.c:131-153 | setup exits with status 1 when opening the library or creating the transport fails |
| VectorTester.Run | tibrvvectorlistentester.c:108-253 | `main` exits with status 1 on a bad flag, a failed setup or a failed batch, and otherwise with status 0 whatever the sends return, having sent the batch up to the first failed send |
| FtMon.GetInitParms | tibrvftmon.c:67-98 | the scanner takes the transport flags, with no count or help check |
| FtMon.PositionalArgumentsIgnored | tibrvftmon.c:67-98 | the scan stops at the first argument without a dash, so later flags are not checked |
| FtMon.Setup | tibrvftmon.c:122-163 | setup exits with status 1 at any failing step |
| FtMon.ChangeAt | tibrvftmon.c:40-48 | the change reported for each count compares it with the count before it |
| FtMon.ChangesCompareNeighbours | tibrvftmon.c:40-48 | every report after the first compares neighbours; the first report, from a start of 0, is an activation |
| FtMon.NondecreasingIsActivations | tibrvftmon.c:40-48 | counts that never fall are reported as activations only |
| FtMon.GroupMonitor.constructor | tibrvftmon.c:40 | the remembered count starts at 0 |
| FtMon.GroupMonitor.MonCB | tibrvftmon.c:34-51 | `monCB` reports the change against the remembered count, then remembers the new count |
| FtMon.GroupMonitor.Monitor | tibrvftmon.c:169-172 | a series of `monCB` calls reports exactly the changes of the series, and remembers its last count |
| Certified.Classify | tibrvcmlisten.c:148-227 | the sender is certified exactly when the subject, reply-subject and sender lookups succeed; the listener is registered exactly when the sequence lookup succeeds too; the callback fails exactly when a lookup fails in a way it does not tolerate |
| Certified.ClassifyIsChain | tibrvdqlisten_old.c:109-190 | the callback's status is the first failure among its lookups, each tolerated `NOT_FOUND` counting as success, and the sequence number is looked up only from a certified sender |
| Certified.OutputShowsSequenceIffRegistered | tibrvcmlisten.c:229-257 | a line is printed exactly when the callback succeeded; it names the reply subject or `none`; it shows the sequence number, cast to `tibrv_u32`, exactly for a registered listener |
| CmListen.GetInitParms | tibrvcmlisten.c:278-328 | the scanner requires two arguments and takes the transport flags, `-ledger` and `-cmname` |
| CmListen.ConfigureFromArgs | tibrvcmlisten.c:278-344 | the correspondent name is the last `-cmname`, `RVCMSUB` when absent, and the ledger is the last `-ledger` |
| CmListen.Setup | tibrvcmlisten.c:357-391 | setup exits with status 1 at any failing step |
| CmListen.Advisories | tibrvcmlisten.c:436-466 | the advisory setup either carries on or exits with status 5 |
| CmListen.AdvisoryExitDependsOnSecondOnly | tibrvcmlisten.c:436-466 | the first advisory listener's status is overwritten unread, so status 5 follows exactly from a failure of the second |
| DqListen.GetInitParms | tibrvdqlisten_old.c:241-318 | the scanner requires two arguments and takes the transport flags and the queue's six settings |
| DqListen.ScannerRejectsUnknown | tibrvdqlisten_old.c:241-318 | a flag of another program, such as `-ledger`, is rejected, and so is a lone program name |
| DqListen.Configure | tibrvdqlisten_old.c:342-349 | absent settings keep the defaults 1, 1, 1, 1.0, 3.5 and `RVCMSUB`; the worker weight and task count are cast to `tibrv_u32` and the scheduler weight to `tibrv_u16`, each equal to the `atoi` of its value when that fits |
| DqListen.NumbersFromArgs | tibrvdqlisten_old.c:241-349 | the worker weight and task count are the last value given for their flags modulo 2^32, the scheduler weight the last `-schedulerWeight` value modulo 2^16, each 1 when absent |
| DqListen.Setup | tibrvdqlisten_old.c:366-424 | setup exits with status 1 at any failing step |
| DqListen.Advisories | tibrvdqlisten_old.c:496-524 | the scheduler advisory listeners carry on exactly when both are created, and otherwise exit with status 1 |

## Left out

- The Rendezvous library itself: every call is the status it returns. Message contents are modelled only as far as the programs read or write them: the numeric fields, the send subjects, the reply subjects `tibrvlisten` prints and the server's search reply carries, `DATA`, and the certified-delivery fields. The inbox subject is an input of `Server.ServerProcess`: the unchecked `CreateInbox` that makes it is not modelled further.
- Concurrency: dispatcher threads, the interleaving of callbacks with `main`, and queue priorities. Each callback is one atomic step, and a dispatch round is a given sequence of events.
- Floating point: `-interval`, `-heartbeat` and `-activation` are `real` values from a given `atof`; elapsed-time and message-rate figures are not modelled.
- `printf` formatting, time stamps (`tibrvMsg_GetCurrentTimeString`), `tibrvMsg_ConvertToString`, and the text of error messages. Lines are modelled as a flag saying one is printed, or as the line's fields; only `tibrvlisten`'s line layout is spelt out.
- `rand()`: the drawn values are inputs.
- `atoi`, `atol`, `atof` and `strtoul`: function parameters, with only the cast to the field's width modelled.
- What happens after `exit()`: the process status is the result, and no later state is specified. The same applies to `usage()` text, `SIGINT` and `Sleep` handling, and `tibrv_Close`.
- The code under `#if 0` and the allocation and freeing of messages and closures, other than `tibrvvectorlisten`'s named closures. Memory ownership is not modelled.
- The printing done by `tibrvvectorlisten`'s callbacks, and the advisory callbacks of `tibrvcmlisten` and `tibrvdqlisten_old`: they only print.
- The dispatch loops of `tibrvcmlisten` and `tibrvftmon`: each repeats `tibrvQueue_Dispatch` until it fails, like `Listen.DispatchLoop`. `FtMon.GroupMonitor.Monitor` models what `tibrvftmon`'s dispatching does.
- The dispatch loop of `tibrvdqlisten_old` (tibrvdqlisten_old.c:551): it calls `tibrvQueue_TimedDispatch` with a 0.1 second timeout while `shutdown_flag` is clear, so it ends and returns 0 once 0.1 s pass with no event, or once the signal handler (tibrvdqlisten_old.c:321-327) has set the flag. Timing and signals are not modelled, so this loop is not modelled either.
- `tibrvlisten`'s unchecked `GetSendSubject`/`GetReplySubject` statuses: a message is assumed to carry its subject.
- Client.ClientRun.WaitLoop: the rounds given are finite, so a loop still running when they run out is reported, not continued.
- Listen.DispatchLoop: the same applies; `None` means the loop is still running.
- VcClient.VcSession.BurstRun: the replies are taken after the burst rather than interleaved with it, and at most `requests` of them, with the disconnect, if any, last; a reply arriving during the burst is the concurrency left out above. A run that is never signalled blocks for ever at tibrvvcclient.c:768; the model gives it no exit status (`None`) rather than modelling the wait.
- Client.ClientRun.PubMsg: the timer's `tibrvEvent_Destroy` status is not read by the program (tibrvclient.c:390), and the destroy is taken to succeed.
