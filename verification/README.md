# A verified model of the tr69d CPE daemon

tr69d is a TR-069 client: a daemon opens CWMP sessions to an Auto Configuration Server (ACS), a Lua
engine maps TR-181 parameters to UCI options, and a small HTTP server accepts Connection Requests with
Digest authentication. This project models its stateful and arithmetic parts in Dafny and proves what
they promise, over every input, every fault of the commands they call, and every interleaving with the
rest of the system.

| file | part of the system |
|---|---|
| `Transaction.dfy`, `Reading.dfy`, `Validation.dfy`, `DeviceMap.dfy` | the set transaction over a UCI store whose commands may fail, reading, validation, the parameter table |
| `Acceptance.dfy`, `DeviceReading.dfy` | the reference for the table-driven code, parameter by parameter: which requests are accepted, what every parameter reads as, what every field of the configuration is |
| `Shell.dfy`, `UciCommands.dfy` | the command lines written for the shell, and what they mean once a POSIX shell has read them |
| `RuntimeConfig.dfy`, `Daemon.dfy` | stored text as daemon configuration; the daemon loop with other threads, other writers and restarts |
| `CwmpSession.dfy` | the CWMP session, its state machine and its RPC dispatch, against an arbitrary ACS |
| `SoapParser.dfy`, `SoapBuilder.dfy`, `XmlTree.dfy`, `XmlText.dfy` | the SOAP documents, read and written |
| `Requests.dfy`, `Replies.dfy`, `Informs.dfy` | every request from its document to what is parsed; every document the daemon sends, from its value to the text and back |
| `Names.dfy` | the parameter names below a path |
| `Md5.dfy`, `Md5Suite.dfy` | MD5 as the program computes it and as RFC 1321 defines it, with the first entry of the RFC's test suite |
| `Digest.dfy`, `Rfc2617.dfy`, `DigestProof.dfy`, `DigestVerdict.dfy`, `DigestExchange.dfy` | header and credential parsing, the request digest of RFC 2617, what is seen of a credential list, which answers are accepted, and the whole challenge-response exchange |
| `Ipv4.dfy` | the address filter behind the computed ConnectionRequestURL |
| `EndToEnd.dfy` | RPCs from the ACS's document to the reply's document, and a SetParameterValues further on to the daemon's next configuration |
| `Text.dfy`, `Wrappers.dfy` | strings, searching, numerals, options |

Code that changes state is modelled as classes and methods with loops; each is proved against a
specification function or a closed form, and the properties are proved about those. The outside world
is nondeterministic: a UCI command may be refused, may leave its option in any state, may take effect
and still report failure, may be unreadable; a session may end in any way; other threads may raise any flag and other programs may write
any option between any two steps.

## What the proofs found

- An accepted DefaultActiveNotificationThrottle of 2^32 or more is truncated when the daemon reads it:
  the map gives it no range. `RuntimeConfig.ThrottleIsExactBelow32Bits` says exactly when the value arrives,
  `RuntimeConfig.ThrottleCanBeTruncated` is the example (4294967296 is read as 0).
- A rollback rewrites what `uci get` printed, so a touched value that ended in a line end loses it.
  `Transaction.RestoredIsUnchanged` says exactly when the old values come back unchanged,
  `Transaction.RollbackCanDropLineEnd` is the example.
- A rejected request can delete configuration. An option that is there but cannot be read at first is recorded as missing
  (transformer/transformer.lua:406-416), and the rollback deletes it (transformer/transformer.lua:423-425). By
  `Transaction.Transformer.Settled`, the contract of `SetParameterValues`, a rollback whose writes take effect leaves exactly
  the old values without those options, and so the old values if and only if every first read worked.
- A rejected request can come back after a restart. The status of the rollback's own commit is not looked at
  (transformer/transformer.lua:431): when the plan was committed, then failed its read-back, and the rollback's commit is
  refused, readers see the old values while the plan stays the durable state. The same contract says
  what is durable after every rejection.
- The file-backed test backend accepts requests that the UCI backend rejects: one key given two values,
  values ending in a line end, values with a NUL. `Transaction.BackendsAgree` says exactly when they agree,
  `Transaction.BackendsCanDisagree` is an example.
- Digest keys are searched for inside values too. `DigestProof.ListIsRead` says what is read from any credential list.
  A user name that holds `realm=` makes the right answer fail unless what follows, up to the next comma, happens to be
  the realm: `DigestVerdict.NameMayHideKeys` is the exact condition, for `nonce=` as well. In the usual answer a
  name such as `realm=x` is refused (`DigestVerdict.NameIsRefused`) and one such as `realm=tr069d,x` accepted
  (`DigestVerdict.NameIsAccepted`).
- `nonce=` is also found inside `cnonce=`: a client that sends cnonce before nonce, which RFC 2617 permits, is refused
  unless the two agree (`DigestVerdict.RightAnswerNeedsNonceFirst`, and `DigestVerdict.SwappedNonceIsRefused` for the usual
  answer with the two exchanged).
- The scheme `Digest` is matched letter by letter, where RFC 2617 takes any case (`DigestVerdict.OtherSpellingIsRefused`);
  so are the field names.
- The authentication mode that an ACS reads need not be the one in force. Without the option it reads "None", the default of
  transformer/maps/Device.map:65-68, while the listener asks for Digest (src/Tr069Daemon.cpp:150).
  `RuntimeConfig.ReadModeIsInForce`: the two agree if and only if the option is there and not empty.
- "M Reboot" leaves the pending events with the first pass of the loop, whether the session succeeded or not. When the first
  session after a start fails, the report is lost for the rest of the process, however many sessions succeed later, unless a
  new Reboot is handled in mock mode; UCI remembers it for the next start (`Daemon.Tr069Daemon.LoseReport`,
  `Daemon.Tr069Daemon.LoopPass`, `Daemon.Tr069Daemon.Lives`).
- A process killed after a session and before its flag writes leaves UCI one session behind: a Reboot just answered is forgotten,
  or one just reported is reported again (`Daemon.Tr069Daemon.KilledAfterSession` says exactly when).
- `runTransferComplete` answers a Reboot or Download received in its own conversation, but nobody acts on it
  (src/CwmpSession.cpp:102 keeps only the success flag). `CwmpSession.TransferLosesRequest`: a successful run loses one if and
  only if the last RPC it answered is one; `CwmpSession.TransferForgetsReboot` is an example.

Where the documentation and the code differ the model follows the code: docs/DESIGN.md:60-65 maps the DeviceInfo parameters to
`tr181.device.*` options, transformer/maps/Device.map:12-32 gives them defaults and getters and no option.

## Model

| member | source | states |
|---|---|---|
| Transaction.Transformer.SetParameterValues | transformer/transformer.lua:347-492 | for every request and every fault of every command: acceptance means the whole plan (items in order, then ParameterKey) is visible and durable; after a rejection whose rollback writes took effect exactly the old values are visible, less the options whose first read failed, and they are durable if the rollback's commit took effect, with the durable values named in every other case; keys outside the request never move; with no fault the exact result and view |
| Transaction.Transformer.SetInUci | transformer/transformer.lua:406-491 | the UCI half of the transaction, visible and durable values, down to which item a rejection names |
| Transaction.Transformer.SetInMock | transformer/transformer.lua:392-404 | the file-backed half: the whole plan or nothing |
| Transaction.Transformer.RecordOriginals | transformer/transformer.lua:406-416 | one original per distinct key: what a reader sees, or nothing for exactly the present options whose read failed |
| Transaction.Transformer.RestoreOriginals | transformer/transformer.lua:420-433 | in whatever order the keys come, every touched key is back to its original or absent again, no other key moves, and the durable values are these if the commit took effect and untouched if not |
| Transaction.Transformer.SendWrites | transformer/transformer.lua:438-458 | all writes applied in order, or the position of the first that failed with nothing outside the plan's keys touched |
| Transaction.Transformer.VerifyWrites | transformer/transformer.lua:466-486 | success means every key reads as its own write; failure names the first that does not |
| Transaction.StageRequest | transformer/transformer.lua:351-378 | the loop refuses with the first bad item, or stages all of them in order |
| Transaction.UciStore.Execute | tests/fake_uci.sh:62-82 | what a shell line may do to the visible and the durable values: its effect, none, or at a failure any value at its own key |
| Transaction.ReadBackMatches | transformer/transformer.lua:466-486 | the read-back check passes if and only if no key is given two values and no value ends in a line end |
| Transaction.RestoredIsUnchanged | transformer/transformer.lua:420-433 | a rollback leaves the old values exactly if and only if no touched one ended in a line end |
| Transaction.RollbackCanDropLineEnd | transformer/transformer.lua:420-433 | a value that ended in a line feed comes back without it |
| Transaction.AcceptedWhenConsistent | transformer/transformer.lua:438-491 | with no failing step a valid plan is accepted if and only if its writes agree, are NUL-free and have no trailing line end |
| Transaction.BackendsAgree | transformer/transformer.lua:392-491 | the two backends give the same result and the same values on exactly those plans |
| Transaction.BackendsCanDisagree | transformer/transformer.lua:392-491 | one option written twice with different values: accepted by one backend, rolled back by the other |
| Transaction.AppliedOutside | transformer/transformer.lua:435-437 | writes staged earlier by others survive: a plan changes only its own keys |
| Transaction.AppliedHoldsLastWrite | transformer/transformer.lua:438-448 | a written key holds the value of its last write |
| Transaction.PlanHasKeys | transformer/transformer.lua:109-111 | every staged write of a well-formed map goes to a proper UCI key |
| Acceptance.NormalizeIsJudged | transformer/maps/Device.map:34-88 | for every writable parameter and the ParameterKey: which values are taken, in which form they are stored and with which complaint the others are refused, stated per parameter without the table |
| Acceptance.TimesMatch | transformer/transformer.lua:74-77 | a dateTime is digits, dashes, T and colons at the 19 positions written out |
| Acceptance.IntegersAreChecked | transformer/transformer.lua:72-90 | a whole number, with or without a minus sign, is taken if and only if it lies in the range, and as it stands |
| Acceptance.OthersAreNoIntegers | transformer/transformer.lua:72-73 | and any other text is no whole number |
| Acceptance.TableIsDescribed | transformer/maps/Device.map:11-89 | exactly fourteen parameters are stored and writable, and each parameter's type name |
| Acceptance.DeclaredTypesAreCompared | transformer/transformer.lua:99-107 | a declared type fits if and only if it is empty, the type's name, or some prefix, a colon and that name |
| Acceptance.ItemIsStaged | transformer/transformer.lua:351-378 | an item that fits is staged in its stored form; any other is refused under its own name with unknown parameter, read-only, type mismatch or its value's complaint, whichever is the case |
| Acceptance.RequestIsPlanned | transformer/transformer.lua:351-390 | a refused request names its first item that does not fit with that item's complaint, and the key only when all items fit |
| Acceptance.PlannedExactlyWhenFit | transformer/transformer.lua:351-390 | a request is planned if and only if every item names a writable parameter with a value it takes and a declared type that fits, and the key has at most 32 bytes |
| Acceptance.WorkingStoreAccepts | transformer/transformer.lua:347-492 | on a store without faults a request is accepted if and only if, besides, items of one name agree and every stored form and the key are NUL-free with no trailing line end |
| Acceptance.SetOnWorkingStore | transformer/transformer.lua:347-492 | the same for the engine itself, with the first misfit named and nothing written for a refused request |
| Reading.GetParameterValues | transformer/transformer.lua:305-327 | known paths are answered in order with their values and types, unknown ones listed in order |
| Reading.KnownPathsAreKnown | transformer/transformer.lua:309-325 | the two result lists split the request: every path is in exactly the list its table entry says |
| Reading.PlanDescribesItems | transformer/transformer.lua:351-390 | the i-th write is the i-th item's key and normalised value, the last one the ParameterKey |
| Reading.ReadYourWrites | transformer/transformer.lua:292-303 | after an accepted set every written parameter reads as its normalised value |
| Reading.OthersReadAsBefore | transformer/transformer.lua:292-303 | and every other stored parameter reads as before, secrets shown or not |
| Reading.DeviceMapReadsYourWrites | transformer/maps/Device.map:34-88 | both facts hold on Device.map with no side condition left on the table |
| Reading.SetAndReadBack | transformer/transformer.lua:347-492 | both facts for the engine itself, under every fault schedule |
| Reading.OnlyPasswordsAreHidden | transformer/transformer.lua:292-303 | without leave to show secrets exactly the two passwords read as empty, and everything else reads as it is |
| DeviceReading.SpecReads | transformer/transformer.lua:292-303 | what each of the 23 parameters reads as: its own option or its default, its constant, or its getter's answer |
| DeviceReading.NothingToRead | transformer/transformer.lua:299 | a parameter with neither getter, option nor default reads as empty |
| DeviceReading.ValueIsShown | transformer/transformer.lua:305-327 | each is answered under its own name and type with that value, the passwords empty |
| Names.GetParameterNames | transformer/transformer.lua:329-345 | exactly the parameters whose path begins with the given text, each once with whether it can be written, in the order of their names; an error if and only if there is none |
| Reading.ParameterKeyIsReserved | transformer/maps/Device.map:46-48 | no item of an accepted request names the ParameterKey |
| Reading.ParameterKeyLimit | transformer/transformer.lua:385-390 | the ParameterKey is refused if and only if it is longer than 32 bytes |
| DeviceMap.DeviceMapKeysAreDistinct | transformer/maps/Device.map:34-88 | no two parameters share a UCI option |
| DeviceMap.DeviceMapIsWellFormed | transformer/maps/Device.map:4-8 | every option name in the table makes a proper UCI key |
| DeviceMap.PathsAreDistinct | transformer/maps/Device.map:11-89 | looking up a parameter's path finds that parameter |
| Validation.NormalizeIsIdempotent | transformer/transformer.lua:53-97 | normalising a normalised value changes nothing, if and only if it still fits the maximum length |
| Validation.DeviceMapDefaultsNeverMask | transformer/transformer.lua:300-302 | no default of Device.map hides an accepted empty value |
| Validation.ActualType | transformer/transformer.lua:99-107 | the compared type is the text after the last colon where something follows it, and all of it otherwise |
| Shell.CppShellQuote | src/UciAdapter.cpp:24-28 | the loop writes the quoted form, quote by quote |
| Shell.WritersAgree | transformer/transformer.lua:4-6 | the Lua quoting by gsub and the C++ quoting give the same text |
| Shell.QuotedIsOneWord | src/UciAdapter.cpp:24-28 | a POSIX shell reads the quoted text as exactly one word equal to the input, if and only if it is NUL-free |
| UciCommands.SetLineDenotesSet | transformer/transformer.lua:439-442 | the composed set line reaches the store as the intended key and value; with a NUL it reaches it not at all |
| UciCommands.DeleteLineDenotesDelete | transformer/transformer.lua:424-425 | the same for delete |
| UciCommands.CommitLineDenotesCommit | transformer/transformer.lua:431 | the same for commit |
| UciCommands.UciBinary | src/UciAdapter.cpp:42-44 | whichever binary is chosen, it is one that the command lines are understood for |
| UciCommands.KeyCharacters | src/UciAdapter.cpp:15-22 | all letters and digits may stand in a key, and four marks |
| UciCommands.AdapterLineDenotesSet | src/UciAdapter.cpp:55-68 | the C++ adapter's line, quoted from the middle of a word, denotes the same command, for keys without square brackets |
| UciCommands.AssignmentSplits | tests/fake_uci.sh:66-69 | an assignment is cut after the key whatever equals signs the value holds |
| RuntimeConfig.StoulOfNumeral | src/UciAdapter.cpp:90-100 | parsing an accepted numeral consumes all of it and gives its decimal value, or overflows |
| RuntimeConfig.StoulIsExact | src/UciAdapter.cpp:90-100 | on any text: white space, a sign, digits and a rest give the number, wrapped around when negative, and how much was consumed; no digits or too large a number give none |
| RuntimeConfig.IntervalIsExact | src/Tr069Daemon.cpp:118-123 | every accepted PeriodicInformInterval becomes its decimal value, without clamp, truncation or fallback |
| RuntimeConfig.RetryWaitIsExact | src/Tr069Daemon.cpp:151 | the same for CWMPRetryMinimumWaitInterval |
| RuntimeConfig.RetryMultiplierIsExact | src/Tr069Daemon.cpp:152-153 | the same for CWMPRetryIntervalMultiplier |
| RuntimeConfig.ThrottleIsExactBelow32Bits | src/Tr069Daemon.cpp:128-134 | an accepted throttle becomes its decimal value if and only if that is below 2^32 |
| RuntimeConfig.ThrottleCanBeTruncated | transformer/maps/Device.map:75-78 | 4294967296 is accepted and read as 0 |
| RuntimeConfig.BooleanKeepsItsMeaning | transformer/transformer.lua:61-69 | every accepted spelling is stored as true or false with its meaning |
| RuntimeConfig.AcceptedSettingsArrive | src/Tr069Daemon.cpp:103-158 | every item of an accepted request is what the configuration read next holds, parameter by parameter |
| RuntimeConfig.DecodeDependsOnSettings | src/Tr069Daemon.cpp:103-158 | a configuration depends on 22 settings and on nothing else |
| RuntimeConfig.ComparisonIsComplete | src/Tr069Daemon.cpp:31-52 | the hand-written comparison plus the two flags is equality: no field is forgotten |
| DeviceReading.ConfigIsDecoded | src/Tr069Daemon.cpp:109-140 | the fields read through the map, by their options: what each is when its option is there and when it is missing or empty |
| DeviceReading.FlagsAreDecoded | src/Tr069Daemon.cpp:114-142 | the daemon's flags, by option: set by 1, true, yes and on alone, with the default where there is none |
| DeviceReading.TextsAreDecoded | src/Tr069Daemon.cpp:113-150 | CA file, bind address, authentication mode and realm, for an absent and a present option |
| DeviceReading.NumbersAreDecoded | src/Tr069Daemon.cpp:118-153 | port, retry wait and multiplier: the decimal value of a numeral of 32 bits, not below the least value, and the default for a text that ends in no digit |
| DeviceReading.TimersAreRead | src/Tr069Daemon.cpp:118-134 | interval and throttle from any numeral of 32 bits, and 300 and 0 from a text that begins with a letter or is empty |
| RuntimeConfig.ReadModeIsInForce | src/Tr069Daemon.cpp:150 | the authentication mode that is read is the one in force if and only if the option is there and not empty |
| Daemon.Tr069Daemon.RefreshConfig | src/Tr069Daemon.cpp:160-200 | under any interleaving the result reports a change if and only if there is one, a non-empty ACS URL never becomes empty, the listener agrees with the configuration (and is live whenever it is enabled and sockets can be opened), an unchanged connection restarts nothing, a refresh over an unwritten store is quiet, and no reload is lost |
| Daemon.OnlyUrlIsKept | src/Tr069Daemon.cpp:166-171 | everything comes from the read-back but an ACS URL that is gone at run time, where the one before stays |
| Daemon.Tr069Daemon.ReadConfig | src/Tr069Daemon.cpp:103-158 | settings are read one by one while the world goes on, and any read may fail; each one read is still current unless its key was written since the refresh began |
| Daemon.Tr069Daemon.RestartConnectionRequestServer | src/Tr069Daemon.cpp:202-222 | a live listener is enabled and holds exactly the current connection settings, and where sockets can be opened there is one whenever it is enabled |
| Daemon.SecondRefreshIsQuiet | src/Tr069Daemon.cpp:160-200 | two reads of one store, however they were interleaved, give one configuration, and installing the second changes nothing |
| Daemon.Tr069Daemon.RefreshTwice | src/Tr069Daemon.cpp:160-200 | of two refreshes with no setting written meanwhile the second reports no change and restarts nothing |
| Daemon.Tr069Daemon.NoReloadIsLost | src/Tr069Daemon.cpp:362-365 | while the reload flag is clear, and nothing was written since the last request or refresh, the configuration is the stored one |
| Daemon.Tr069Daemon.OtherThreads | src/Tr069Daemon.cpp:362-375 | any sequence of requests and of writes and deletions by other programs keeps every raised flag and accounts for every request |
| Daemon.Tr069Daemon.WaitForNextInform | src/Tr069Daemon.cpp:230-262 | the endless loop is left in its first pass, respects the fixed priority, takes exactly the flag of its reason, leaves the others, and is paid for by a request of its own |
| Daemon.Tr069Daemon.TakeInOrder | src/Tr069Daemon.cpp:246-259 | one pass over the flags, with other threads acting between any two exchanges |
| Daemon.Tr069Daemon.AwaitSignal | src/Tr069Daemon.cpp:232-244 | an untimed wait ends only with a request raised; a timed one may end without |
| Daemon.OwedAfter | src/Tr069Daemon.cpp:306-341 | how one session changes whether a reboot is owed: a new Reboot wins over the delivery of the old one |
| Daemon.Tr069Daemon.CloseSession | src/Tr069Daemon.cpp:297-315 | after a session bootstrapping is done if and only if it was or the session succeeded, and UCI says so; the pending flag, in memory and in UCI, is set if and only if the old reboot is still undelivered |
| Daemon.Tr069Daemon.RebootPart | src/Tr069Daemon.cpp:322-341 | a requested reboot is recorded before the process may die; the loop goes on with both boot events if and only if mock mode is on |
| Daemon.Tr069Daemon.AfterSession | src/Tr069Daemon.cpp:342-351 | a reload requested during the session is served at once, any other wake-up means the configuration did not change, and a connection request or inform counts as taken exactly by its own wake-up |
| Daemon.Tr069Daemon.LoopPass | src/Tr069Daemon.cpp:279-356 | one pass keeps the invariant, by which "M Reboot" is pending if and only if a reboot is owed and no pass has gone by since the boot; a session runs exactly when CWMP is on and an ACS URL is known, and reports the pending events; the next events are the boot events exactly after a Reboot in mock mode, and otherwise "6 CONNECTION REQUEST" if and only if a connection request was taken in this pass, "2 PERIODIC" if and only if the timer ran out or an inform was asked for, and "4 VALUE CHANGE" in every other case |
| Daemon.EventsTellWake | src/Tr069Daemon.cpp:284-287 | which wake-up each event code stands for, and that none reports a reboot |
| Daemon.Tr069Daemon.Boot | src/Tr069Daemon.cpp:269-277 | a start re-establishes the invariant from UCI alone, with the boot events of the configuration read |
| Daemon.BootReportsPending | src/Tr069Daemon.cpp:274-277 | the first Inform carries "0 BOOTSTRAP" if and only if bootstrapping is not done, "1 BOOT" always, "M Reboot" if and only if the flag was stored, each once and nothing else |
| Daemon.Tr069Daemon.constructor | src/Tr069Daemon.cpp:91-94 | a daemon that has not run yet satisfies the restart invariant if and only if its store holds no pending reboot (or flag writes may fail) |
| Daemon.Tr069Daemon.LoseReport | src/Tr069Daemon.cpp:274-356 | after a start with a reboot to report and a failed first session, no run without a new Reboot ever reports it, and it stays owed |
| Daemon.Tr069Daemon.Run | src/Tr069Daemon.cpp:269-360 | after any number of passes with any outcomes a running process is at a loop top with the invariant, so it holds at every loop top of every run; all passes are made unless the process is stopped or asked to reboot |
| Daemon.Tr069Daemon.Lives | src/Tr069Daemon.cpp:269-360 | across any number of processes, each ended at any loop top, UCI knows whether a reboot is owed |
| Daemon.Tr069Daemon.KilledAfterSession | src/Tr069Daemon.cpp:295-329 | killed before the flag writes, the process leaves UCI as of the session before, which is right if and only if the session changed nothing about the owed reboot |
| CwmpSession.CwmpStateMachine.Transition | src/CwmpStateMachine.cpp:5-14 | a step is taken if and only if the state diagram has it |
| CwmpSession.LegalIsDiagram | docs/DESIGN.md:45-54 | the chain of comparisons is the diagram of the design |
| CwmpSession.HandledAction | src/cwmp/rpc_handler.cpp:7-87 | a reboot is asked for exactly by Reboot, with its own command key and under a RebootResponse, a download exactly by a Download with a request, that request unchanged and under a DownloadResponse, neither ever with a fault, and the reply carries the request's id or "0" |
| CwmpSession.FaultCodeTellsWhy | src/cwmp/rpc_handler.cpp:12-85 | a fault has code 9000 exactly for what is not supported, 9003 exactly for a refused set, 9005 exactly for a failed read |
| CwmpSession.ReplyCarriesAnswer | src/cwmp/rpc_handler.cpp:7-87 | each kind of reply belongs to one kind of request and carries the engine's own answer to it, down to the names in a fault |
| CwmpSession.OkIsSuccess | include/tr069/HttpClient.hpp:13 | a response counts if and only if it was received and its status is of the success class |
| CwmpSession.CwmpSession.BeginInform | src/CwmpSession.cpp:27-48 | one Inform is sent; success means an acknowledged Inform and state InformSent, failure means Idle |
| CwmpSession.CwmpSession.ProcessAcsMessages | src/CwmpSession.cpp:50-80 | for every ACS script the posts and the outcome are the closed form, every transition is accepted, success ends in Idle, and the passes are bounded by the responses |
| CwmpSession.CwmpSession.Run | src/CwmpSession.cpp:82-91 | the posts are Inform, empty, then one reply per RPC in arrival order, and nothing else; the states entered are Connecting, InformSent, RpcProcessing once per reply, and on success SessionClose and Idle |
| CwmpSession.CwmpSession.RunTransferComplete | src/CwmpSession.cpp:93-103 | the posts are Inform, TransferComplete, empty, then the replies, with consecutive ids, and the states entered are those of the phases |
| CwmpSession.TransferForgetsReboot | src/CwmpSession.cpp:93-103 | a Reboot in the TransferComplete session is answered and the session succeeds without asking for it |
| CwmpSession.TransferLosesRequest | src/CwmpSession.cpp:93-103 | a successful TransferComplete session answers a Reboot or Download that nobody acts on if and only if its last RPC is one |
| CwmpSession.OutcomeIsFromLastRpc | src/CwmpSession.cpp:62-73 | a failed session asks for nothing, a successful one for at most one thing, and that by its last RPC, with the key or request that RPC holds |
| CwmpSession.ConversationIsDetermined | src/CwmpSession.cpp:50-80 | the closed form leaves no choice: the script determines every post and the outcome |
| CwmpSession.OneMoreReply | src/CwmpSession.cpp:52-74 | one pass of the loop appends exactly the reply to the response before it |
| SoapParser.FindsFirstInPreorder | src/SoapParser.cpp:30-37 | the search returns the first element of that name in document order, and nothing if and only if there is none |
| SoapParser.FindDescendantLoop | src/SoapParser.cpp:30-37 | the sibling loop with recursion computes that search and terminates on every tree |
| SoapParser.CallInFirstBody | src/SoapParser.cpp:49-100 | in any tree the request is read from the first element inside the first Body in document order |
| SoapParser.NoRequest | src/SoapParser.cpp:49-61 | a tree is a request if and only if it has a Body and the first one holds an element; the message tells which is missing |
| SoapParser.OnlyCallMatters | src/SoapParser.cpp:49-100 | two trees with the same call element and id are the same request, of any method |
| Requests.GetRequestReadsBack | src/SoapParser.cpp:67-71 | a GetParameterValues document parses to its names in order |
| Requests.NamesRequestReadsBack | src/SoapParser.cpp:72-75 | a GetParameterNames document parses to its path |
| Requests.RebootRequestReadsBack | src/SoapParser.cpp:84-85 | a Reboot document parses to its command key |
| Requests.DownloadRequestReadsBack | src/SoapParser.cpp:86-97 | a Download document parses to its seven fields |
| Requests.DelayIsExact | src/SoapParser.cpp:94-96 | the delay is exact for every numeral below 2^32, and 0 without a number |
| Requests.MissingTypeIsString | src/SoapParser.cpp:39-46 | a value without a declared type is a string; missing parts are empty |
| Requests.EmptyCallParses | src/SoapParser.cpp:63-99 | a call of any method without its parts has empty ones, and only a Download has a download |
| XmlText.EscapeLoop | src/SoapBuilder.cpp:23-36 | the loop writes the escaped text |
| XmlText.EscapeRoundTrip | src/SoapBuilder.cpp:23-36 | reading by XML 1.0 undoes escaping if and only if the text has only characters that reading keeps |
| XmlText.EscapedHasNoMarkup | src/SoapBuilder.cpp:23-36 | no `<` and no quotation mark survives escaping |
| XmlTree.ContentReadsBack | src/SoapParser.cpp:51-54 | every printed list of nodes with readable texts is read back, whatever end tag follows |
| XmlTree.ElementReadsBack | src/SoapParser.cpp:51-54 | the same for one element, attributes and children included |
| XmlTree.SelfClosedRenders | src/SoapBuilder.cpp:117-119 | an element closed in its start tag reads as the empty element, whatever follows |
| XmlTree.AroundRenders | src/SoapParser.cpp:51-54 | an element around any text that reads as its children reads as that element |
| SoapBuilder.BuildStructs | src/SoapBuilder.cpp:91-94 | the loop prints exactly the list of struct elements |
| SoapBuilder.StructsReadBack | src/SoapParser.cpp:76-82 | the parser's loop over them gives back names, values and types in order |
| SoapBuilder.EnvelopeIsPrinted | src/SoapBuilder.cpp:38-48 | the envelope text is the printed envelope tree around any body |
| SoapBuilder.NamespacesInFull | src/SoapBuilder.cpp:38-48 | the five namespaces of every envelope |
| SoapBuilder.GetParameterValuesResponse | src/SoapBuilder.cpp:86-97 | the response text is the printed response tree |
| SoapBuilder.ResponseReadsBack | src/SoapBuilder.cpp:86-97 | that text reads back with its id, and with the same values, types and order |
| Replies.WriteReply | src/SoapBuilder.cpp:86-139 | the document written for any reply, with readable texts, is read as the envelope around that reply's tree |
| Replies.SendReply | src/SoapBuilder.cpp:86-139 | and from it an ACS reads exactly that reply: its kind, its id, its values, names or fault, in order |
| Replies.ReplyIsTold | src/SoapBuilder.cpp:86-139 | the tree of a reply determines the reply |
| Replies.FaultRenders | src/SoapBuilder.cpp:127-139 | the fault's text, with one entry for each named parameter, reads as its tree |
| Replies.CountIsAnnounced | src/SoapBuilder.cpp:89-90 | the number in a list's array type is the number of its entries |
| Informs.WriteInform | src/SoapBuilder.cpp:50-73 | from an Inform's document an ACS reads exactly the device, the events in order, the time, the retries and the values with their types, under the session's id |
| Informs.WriteTransfer | src/SoapBuilder.cpp:75-84 | from a TransferComplete's document it reads exactly the command key, the fault and the times |
| Informs.InformIsTold | src/SoapBuilder.cpp:50-73 | the tree of an Inform determines it |
| SoapBuilder.EnvelopeParses | src/SoapParser.cpp:54-65 | any call in an envelope is found with its method name and its id |
| SoapBuilder.SetRequestReadsBack | src/SoapParser.cpp:49-100 | a SetParameterValues document parses to exactly the request it was written for |
| EndToEnd.AcceptedRequestSettles | src/cwmp/rpc_handler.cpp:47-62 | an accepted request is in force for every reader and for the daemon's next configuration |
| EndToEnd.AnyTreeAsks | src/SoapParser.cpp:49-100 | every printed tree with readable texts, whose first Body begins with a SetParameterValues element, is a request for what that element lists |
| EndToEnd.BuiltDocumentAsks | src/SoapParser.cpp:49-100 | a document in the builder's form is a request for exactly what it was written for |
| EndToEnd.ServeSetRequest | src/cwmp/rpc_handler.cpp:47-68 | from any request document through the transaction to the reply's document: a SetParameterValuesResponse means all of it is in force; a refusal is a 9003 fault with the transaction's own reason and parameter, on an untouched store for an invalid request, and otherwise with the old values back as far as the rollback went and every other option untouched; without faults it is accepted exactly when it is acceptable |
| EndToEnd.ServeGetRequest | src/cwmp/rpc_handler.cpp:12-29 | from any GetParameterValues document to the reply's: when every path is known exactly the paths, in order, each with its value and type, the passwords empty; otherwise a 9005 fault that names exactly the unknown paths in order |
| EndToEnd.ServeNamesRequest | src/cwmp/rpc_handler.cpp:30-39 | from any GetParameterNames document to the reply's: exactly the parameters below the document's path, in order, or a 9005 fault when there is none |
| EndToEnd.ServeOtherRequest | src/cwmp/rpc_handler.cpp:30-85 | from any other document to the reply's: a Reboot's key and a Download's request come out unchanged, each under its own response and no other; names are the engine's answer; anything else is a 9000 fault |
| EndToEnd.RebootAnswered | src/cwmp/rpc_handler.cpp:69-74 | the whole way of a Reboot: the key written in the document is the one the daemon is asked to use, and the reply's document is a RebootResponse with the document's id |
| Md5.Md5Hex | src/Md5.cpp:15-68 | the program computes the digest of RFC 1321 in hex, on every byte string |
| Md5.ShuffleBlock | src/Md5.cpp:47-60 | the register-shuffling loop with computed indices is the compression of section 3.4 |
| Md5.LoopIsRfcRounds | src/Md5.cpp:48-59 | 64 passes and the final addition equal the four explicit rounds |
| Md5.FourStepsAreALine | src/Md5.cpp:48-59 | four passes are one line of operations, every register back in its place |
| Md5.StepIsOperation | src/Md5.cpp:49-58 | one pass is one operation of the pass's round |
| Md5.ShiftsRotate | src/Md5.cpp:12-22 | shifting left and right by the amount of a pass is the rotation that the RFC's table names for it |
| Md5Suite.EmptyMessage | src/Md5.cpp:15-68 | the reference gives the empty message the digest printed in section A.5 of RFC 1321, through all 64 constants, shifts and indices |
| Md5.Pad | src/Md5.cpp:33-37 | the byte-by-byte padding is the padding of sections 3.1 and 3.2 |
| Md5.PaddingIsUndone | src/Md5.cpp:33-37 | the message can be recovered from its padded form |
| Md5.LengthIsRecorded | src/Md5.cpp:34-37 | the last eight bytes are the length in bits modulo 2^64, low-order byte first |
| Md5.DecodeBlock | src/Md5.cpp:41-46 | sixteen little-endian words per block |
| Md5.WordsAreLowByteFirst | src/Md5.cpp:42-46 | a decoded word holds its four bytes, the first one lowest |
| Md5.BlockIsDecoded | src/Md5.cpp:41-46 | word i of a block holds its bytes 4i to 4i + 3, the first one lowest |
| Md5.HexStateReadsBack | src/Md5.cpp:63-67 | the output is 32 lower-case hex digits that decode to the final state |
| Digest.HeaderValueLoop | src/ConnectionRequestServer.cpp:62-84 | the loop over header lines finds what the recursive definition finds |
| Digest.DigestValueLoop | src/ConnectionRequestServer.cpp:86-98 | the field lookup, quoted or not, with trailing blanks dropped |
| DigestProof.ListIsRead | src/ConnectionRequestServer.cpp:86-98 | in any list of delimited fields, whatever order and values, the lookup gives the first value whose key ends in the one asked for, or what leaks out of an earlier value that holds it, or nothing |
| DigestProof.HeaderAmongLines | src/ConnectionRequestServer.cpp:66-82 | header lines of other names, or of none, are passed over |
| DigestProof.HeaderIsTaken | src/ConnectionRequestServer.cpp:70-78 | the header's value is its text after any number of blanks and tabs, in any letter case of its name |
| DigestVerdict.ListIsJudged | src/ConnectionRequestServer.cpp:100-136 | whatever the hash, any such list is authorized if and only if authentication is off or name, realm and nonce are the server's, uri is not empty and the response is the digest of section 3.2.2 of RFC 2617 over the values seen and the server's password |
| DigestVerdict.ExpectedIsRequestDigest | src/ConnectionRequestServer.cpp:127-131 | the program's digest is the RFC's request-digest, KD over H(A1) and H(A2), with and without qop |
| DigestVerdict.AnswerNeedsFour | src/ConnectionRequestServer.cpp:100-136 | an answer in any order, among any other fields, with any response text, is accepted if and only if the text is the digest from the server's password and name, realm and nonce are seen as they are |
| DigestVerdict.OtherSpellingIsRefused | src/ConnectionRequestServer.cpp:108-112 | the scheme in any other letter case is refused |
| DigestVerdict.RightAnswerNeedsThree | src/ConnectionRequestServer.cpp:100-136 | so the answer of a client that has the password is accepted if and only if name, realm and nonce are seen as they are |
| DigestVerdict.RightAnswerNeedsNonceFirst | src/ConnectionRequestServer.cpp:100-136 | when no value hides a key it is accepted if and only if nonce stands before cnonce or equals it |
| DigestVerdict.AnswerNeedsNonceFirst | src/ConnectionRequestServer.cpp:100-136 | for any response text: accepted if and only if it is the digest from the server's password and nonce stands before cnonce or equals it |
| DigestVerdict.NameMayHideKeys | src/ConnectionRequestServer.cpp:86-98 | a right answer in the usual order is accepted if and only if the user name holds no realm key, or what follows its first one up to a comma is the realm, and likewise for the nonce key in name or realm |
| DigestVerdict.NameIsRefused | src/ConnectionRequestServer.cpp:86-136 | with a user name that holds the realm key and no comma the usual answer is right and refused |
| DigestVerdict.NameIsAccepted | src/ConnectionRequestServer.cpp:86-136 | with one that goes on with the realm and a comma it is right and accepted |
| DigestVerdict.SwapKeepsRight | src/ConnectionRequestServer.cpp:100-136 | exchanging two fields keeps an answer right |
| DigestVerdict.SwappedNonceIsRefused | src/ConnectionRequestServer.cpp:86-136 | the usual answer with nonce and cnonce exchanged is right, and accepted if and only if they are equal |
| DigestVerdict.UsualAnswerIsRight | src/ConnectionRequestServer.cpp:86-136 | the answer in the usual order, from presentable values and the server's password, is a right answer with nonce before cnonce |
| DigestVerdict.UsualAnswerHidesNoKey | src/ConnectionRequestServer.cpp:86-98 | in it, values free of the keys that come later hide none |
| DigestExchange.RequestIsJudged | src/ConnectionRequestServer.cpp:165-197 | whole requests and MD5: any request line, any other headers before the credentials; 204 if the values seen pass the check, the challenge otherwise |
| DigestExchange.AnswerIsServed | src/ConnectionRequestServer.cpp:165-197 | any answer that hides no key, in any request, gets 204 if and only if its response is the digest from the server's password and nonce stands before cnonce or equals it; every other text gets the challenge |
| DigestExchange.UsualAnswerIsServed | src/ConnectionRequestServer.cpp:165-197 | the same for the usual answer with any token as its response |
| DigestExchange.NoMethodIsBadRequest | src/ConnectionRequestServer.cpp:146-155 | a request is bad if and only if no method stands before a space in its first line |
| DigestExchange.NoAuthenticationTakesAll | src/ConnectionRequestServer.cpp:100-106 | with authentication off every other request is taken |
| DigestExchange.RightAnswerIsServed | src/ConnectionRequestServer.cpp:165-197 | the right answer of a client that has the password, hiding no key, gets 204 if and only if nonce stands before cnonce or equals it |
| DigestExchange.ChallengeHeaderIsRead | src/ConnectionRequestServer.cpp:138-143 | the challenge's header line reads as its credential list |
| DigestExchange.ChallengeIsComplete | src/ConnectionRequestServer.cpp:138-143 | the challenge is a 401 with an empty body, after which the connection is closed |
| DigestExchange.ChallengeIsRead | src/ConnectionRequestServer.cpp:138-143 | realm, nonce and qop are read from it as the server put them |
| DigestExchange.ChallengedClientIsServed | src/ConnectionRequestServer.cpp:138-197 | the same for a client that knows the password and takes realm and nonce from the challenge itself |
| DigestExchange.UsualClientIsServed | src/ConnectionRequestServer.cpp:165-197 | a client with the server's password that computes the digest by RFC 2617 and answers in the usual order is accepted in every request when name, realm, nonce, uri, nc and cnonce can be written down and none holds a later key with an equals sign |
| DigestExchange.PlainAnswerIsServed | src/ConnectionRequestServer.cpp:165-197 | a right answer whose values beside the digest hold no equals sign gets 204 if and only if nonce stands before cnonce or equals it |
| DigestVerdict.PlainValuesHideNoKey | src/ConnectionRequestServer.cpp:86-98 | values without equals signs hide no key, in any list |
| DigestExchange.Md5TextIsToken | src/ConnectionRequestServer.cpp:127-131 | every digest is a token, so it never disturbs the credential list |
| Ipv4.UsableIsCanonical | transformer/transformer.lua:188-198 | the filter is idempotent and yields only canonical unicast dotted quads |
| Ipv4.UnicastIsFixed | transformer/transformer.lua:188-198 | a dotted quad passes unchanged if and only if it is a unicast host address |
| Ipv4.FilterIsExact | transformer/transformer.lua:188-198 | the filter passes exactly four numerals with dots that make a unicast address, with any white space around, as the plain quad |
| Ipv4.FirstUsableIsFirst | transformer/transformer.lua:279-282 | the first usable candidate decides, and none is found if and only if none is usable |
| Ipv4.ComputedUrlIsUsable | transformer/transformer.lua:274-290 | the computed URL is empty if and only if no candidate is usable; otherwise it has the address of the first usable one, a unicast host, and the configured port, or 7547 where that is no numeral |
| Text.DecimalReadsBack | src/CwmpSession.cpp:25 | a number's decimal text is a numeral with that value |
| Text.LineEndsAreTrimmed | src/UciAdapter.cpp:38 | all carriage returns and line feeds at the end of an output go, and nothing before them |
| Text.LineEndCharacters | src/UciAdapter.cpp:38 | these two characters are the line ends, and no others |
| Text.LettersAreLowered | src/ConnectionRequestServer.cpp:102-104 | the 26 letters lose their case, one by one |

## Left out

- Sockets, libcurl, ubus, files, process start, the reboot command and the download itself: they appear only as
  nondeterministic outcomes. src/HttpClient.cpp, src/UbusServer.cpp, src/main.cpp, src/Logger.cpp,
  src/RebootHandler.cpp and src/DownloadManager.cpp are not part of this model; log text and log levels are not either.
- Transaction.UciStore.Execute: models one package as a map of keys to values with the semantics of tests/fake_uci.sh.
  A failed commit moves all values or none; the real uci deletes an option set to the empty text, which is not
  modelled; nobody else writes during a transaction.
- Transaction.Transformer.SetInMock: the text format of the mock file and its reloading are not modelled, only the map it holds.
- Transaction.Transformer.SetParameterValues: the reload notification after success (transformer/transformer.lua:489) has no
  effect on the result and is not modelled; how far a rollback went is visible in the ghost result only.
- Reading.GetParameterValues: the answers of the three getters are inputs.
- Names.GetParameterNames: table.sort is modelled as an insertion sort; its order is the byte order of the C locale.
- Validation.NormalizeIsIdempotent: the range check is modelled on the decimal numerals that reach it in Device.map, not on the
  other texts that Lua's tonumber accepts.
- Ipv4.ComputedUrlIsUsable: the candidate texts and the `configured_connection_request_url` branch
  (transformer/transformer.lua:245-263) are inputs, so the property is about the computed fallback only.
- Daemon.Tr069Daemon.WaitForNextInform: prompt wake-up is not claimed, since flags are raised without the wait mutex
  (src/Tr069Daemon.cpp:224-226); what is proved is that no request is lost. Time does not pass in numbers.
- Daemon.Tr069Daemon.Lives: a life ends at a loop top; of the kills inside a pass only the one right after a session is modelled
  (KilledAfterSession), not one between two flag writes or between a set and its commit.
- Daemon.Tr069Daemon.LoopPass: the session is an arbitrary outcome here; CwmpSession shows which outcomes there are. Delivery of
  "0 BOOTSTRAP" is not claimed: any wait replaces the events (src/Tr069Daemon.cpp:284-287). The `status` query is left out.
- Daemon.Tr069Daemon.ReadConfig: the transformer always starts (src/Tr069Daemon.cpp:104-107).
- CwmpSession.HandledAction: NextLevel of GetParameterNames is parsed by the program and used by nobody, and is not modelled.
- CwmpSession.CwmpSession.Run: the ACS is a finite script; after its end every POST fails.
- XmlTree.ElementReadsBack: the reader stands in for libxml2 on the form the builder writes. Character references, CDATA,
  comments, attribute values in single quotes, white space inside tags and namespace resolution are not
  modelled; the xsi prefix is taken as bound the way every envelope of the builder binds it.
- XmlText.EscapeRoundTrip: a character stands for a byte or a character alike; texts that are not UTF-8, which libxml2 refuses, are not
  told apart.
- Informs.WriteInform: the device's fields, the current time and the reported values are inputs.
- Md5.Md5Hex: the table of 64 constants is the one printed in RFC 1321; the test vector of section A.5 fixes its use, that it is
  the sine table is not proved.
- Digest.HeaderValueLoop: `recv` reads at most 4095 bytes of a request (src/ConnectionRequestServer.cpp:173-174); the model starts
  from the text received. The nonce is any token; its randomness is not modelled.
- Digest.DigestValueLoop: characters stand for bytes; MD5 is applied to their codes modulo 256.
- DigestProof.ListIsRead: lists have blanks before a key, not between a value and its comma, and no quoted-pair in a value.
- UciCommands.AdapterLineDenotesSet: keys with square brackets, which the adapter lets pass unquoted, are subject to pathname
  expansion by the shell and are not modelled; no key of the program has any.
