# Verified model of QNatter

QNatter opens a NAT mapping with STUN, keeps it alive, and installs forwarding for it.
This project models the parts of it whose correctness is not visible from one function,
and proves what they are for: over all inputs, all runs and all interleavings.

Run `dafny verify dfyconfig.toml` to check the whole project.

## The parts

**Nftables forwarding.** `NftKernel` is the shared rule table: chains of rules with handles
that are never reused, insertion at the head, listings and echoes as text, and a fault for
every command: it may be refused, or take effect without printing anything. `NftAutomaton` is a
forwarder as a state machine that issues one command at a time. `NftForwarder` has the program's
methods in a class with the four handle fields; each method moves a ghost copy of that state
machine along, so the methods and the machine cannot drift apart. `RuleMeaning` reads the rule texts
word by word, as nft does, and says what they do to packets. `NftInterleaving` runs any number of
these machines, and other programs, on one table in any order.

**UDP clients.** `UdpClientMap` has the locked map as a class. `UdpRelay` takes each locked section as
one atomic step and each `Close` as a later step of the receive loop, a reader or the sweeper.

**STUN.** `StunMessage` parses responses in the program's form (loops, buffers XORed in place);
`StunCodec` defines what a well-formed response is by an encoder; `StunTwin` is the second parser;
`StunClient` is the client that rotates its server array in place. CRC-32 is an arbitrary function.

**Sessions.** `KeepAliveLoop` is the loop over ticks, with the meaning of a trace defined without
counters. `SessionLedger` says what an orderly log of taking and giving back is; `SessionEngine` has
`StartSession`, `Session.Close`, `RunLoop` and `RunWithRetry` writing such a log under arbitrary answers
of every dependency.

**Printers and parsers.** `RuntimeSlug` has both slug encoders; `StatusLine` and `StatusRoundTrip` have the
shell writer of the status line and the awk and sed readers, `GoStatusLine` the Go writer of the same line; `Ipv4` and `ForwardTarget` have the address
normaliser and the forwarding target that depends on it.

**Init script.** `RouteSlots` and `RoutePolicy` hand out policy-routing slots and recognise the rules
derived from them; `ServiceReload` is the reload, with the recorded list and fingerprints and what
procd runs. The loaded configuration is a map keyed by shell variable, in which different section names can
meet.

**Decisions.** `UdpNatType` classifies the NAT, and is held against what NATs do; `Discovery` filters SSDP replies.

## What was found

- A forwarder whose insertion prints no handle looks its rule up by text. The lookup is harmless if and only if no
  rule in front of the one sought has its text in its line; otherwise the first such rule is deleted, whoever
  holds it, and the one sought stays (`NftInterleaving.LookupIsHarmlessExactly`). From any table in which every
  rule is somebody else's, eight actions of two forwarders lead there (`NftInterleaving.StealingRun`).
- A UDP reader may fail before its socket is registered. A registered socket has no reader if and only if its
  reader forgot it before it was registered (`UdpRelay.OrphansExactly`).
- Names of characters up to U+FFFF and of U+D8000 to U+DFFFF have different slugs; every other character shares
  its slug with such a name (`RuntimeSlug.SafeExactly`).
- The Go and the shell slug of an ASCII name differ exactly when the name contains `_u` followed by four hex
  digits: only the Go side protects that text (`RuntimeSlug.SlugsAgreeExactly`).
- Reading a text field of the status line loses exactly the newlines at its end. If the Go program wrote the
  line, that holds if and only if the text has no control character besides newline, return and tab, and neither
  U+2028 nor U+2029: the reader does not know the codes for those (`GoStatusLine.GoReadsText`).
- A STUN client created without a valid source takes the first valid inner address for the initial one. A reset
  restores the source the client was made with if and only if that source was valid or no earlier call has
  succeeded with a valid inner address (`StunClient.ResetRestoresExactly`).
- The slot an instance is started with is read from the loaded configuration under the name its section has as a
  shell variable. A section `a-b` reads what `a_b` stores, so both are always started with one policy
  (`RoutePolicy.TwinsAlwaysShare`); and a new slot of a section whose name is not plain does not reach the loaded
  configuration, so that it is started with a counter value that another instance may have as its slot
  (`RoutePolicy.AHyphenCanShareAPolicy`). `RoutePolicy.StartsWithItsSlot` says exactly when an instance is
  started with the slot it was given, and `RoutePolicy.SharesExactly` when two instances share a policy.
- A reload that does not stay hot prepares the slots twice in one process. The second pass repeats the first if
  and only if every section whose name is not plain has no twin and was given the slot loaded for it before
  (`RouteSlots.TwoPassesExactly`). With sections `a-b` and `a_b` and 5 loaded, the passes give 5 and 0, then 0
  and 1 (`RouteSlots.TwinsChangeAgain`).
- After a stop, a reload with hot reload on and an unchanged configuration finds nothing to do and starts nothing;
  in every other case it brings the service back (`ServiceReload.ReloadAfterStop`).
- The comment in `reload_service` says that a missing global section keeps the running instances. The code stops
  them: `qnatter_config_get_bool` turns the empty default into 0, so the test for an empty value never holds
  (`ServiceReload.MissingSectionStops`; qnatter/files/qnatter.init:768-778, qnatter/files/qnatter-common.sh:48-61). The model follows the code.

## Model

| member | source | states |
|---|---|---|
| NftKernel.ExecKeepsValid | go-qnatter/internal/forward/nftables_executor.go:109-122 | whatever a command does, no two rules of the table share a handle and every handle was handed out before |
| NftKernel.EchoIsParsed | go-qnatter/internal/forward/nftables.go:139-149 | the handle parsed from the echo of an insertion is the new rule's, whatever the rule's text |
| NftKernel.PrintedForms | go-qnatter/internal/forward/nftables.go:62-111 | the form of the echo of an insertion and of a rule in a listing |
| NftKernel.NewestRuleIsFound | go-qnatter/internal/forward/nftables.go:118-137 | the first listing line containing the text of a rule just inserted at the head is that rule's, even if older rules or the chain header contain similar text or handles |
| NftKernel.RuleIsFoundExactly | go-qnatter/internal/forward/nftables.go:118-137 | a rule anywhere in its chain is found by its text if and only if no rule in front of it has that text in its line; otherwise the first such rule is found |
| NftForwarder.NftablesForwarder.InsertRule | go-qnatter/internal/forward/nftables_executor.go:109-122 | returns a handle if and only if the insertion succeeds and is echoed; then exactly one rule was added at the head of its chain and the handle is its; otherwise the chain is as before unless taking the rule back failed |
| NftForwarder.NftablesForwarder.DeleteRuleBySpec | go-qnatter/internal/forward/nftables_executor.go:124-135 | deletes the rule just inserted and none of the older ones, or nothing if a command is refused or the listing is silent |
| NftForwarder.NftablesForwarder.Start | go-qnatter/internal/forward/nftables_executor.go:37-101 | of a forwarder without handles: succeeds if and only if its checks pass, the routing policy is set up where one is wanted, every insertion succeeds and is echoed, and a table or chain not found could be created; success puts exactly the planned rules in front of their chains and holds their handles; failure holds none, and every chain is as before if and only if no clean-up command was refused and no clean-up listing was silent |
| NftForwarder.NftablesForwarder.Stop | go-qnatter/internal/forward/nftables_executor.go:180-214 | removes exactly the held rules, except those whose delete was refused, forgets all handles, reports every refusal, and without handles issues nothing |
| NftForwarder.AbortEffect | go-qnatter/internal/forward/nftables_executor.go:37-101 | a table built up by Start and taken down by Stop has the old rules in every chain if and only if nothing was lost and nothing was kept: Start then Stop is the identity, and so is a rollback from any step |
| RuleMeaning.DnatRule | go-qnatter/internal/forward/nftables.go:55-60 | as nft reads it, the translation rule matches exactly the protocol's packets for the opened address and port and sends them to the target's address and port |
| RuleMeaning.SnatRule | go-qnatter/internal/forward/nftables.go:66-75 | the source rule matches exactly the protocol's packets for the target, and gives them the configured source, else the one of the route, else the opened address |
| RuleMeaning.ConnMarkRule | go-qnatter/internal/forward/nftables.go:81-86 | the connection mark is set on exactly what the translation rule matches |
| RuleMeaning.RouteMarkRule | go-qnatter/internal/forward/nftables.go:92-97 | the routing mark is set on exactly the target's packets on connections so marked |
| RuleMeaning.MarkIs | go-qnatter/internal/forward/nftables_executor.go:309-318 | the mark is the configured one if mark, table and priority are all configured, and that of slot 0 otherwise |
| RuleMeaning.OpenedPortIsForwarded | go-qnatter/internal/forward/nftables_executor.go:37-101 | in the chain as Start leaves it, packets for the opened port go to the target whatever other rules there are, and all others fare as before |
| RuleMeaning.TargetSeesSource | go-qnatter/internal/forward/nftables_executor.go:37-101 | and packets for the target get their source if that is wanted, all others faring as before |
| RuleMeaning.RepliesAreMarked | go-qnatter/internal/forward/nftables_executor.go:37-101 | and with a routing policy the connections and the target's packets on them are marked, nothing else changing |
| NftInterleaving.StepKeepsInv | go-qnatter/internal/forward/nftables_executor.go:37-101 | every command of every forwarder, and every edit of another program, keeps a ledger that names the owner of each rule exact |
| NftInterleaving.LedgerIsExact | go-qnatter/internal/forward/nftables_executor.go:37-135 | the same over every run, silent insertions and their lookups included, in which no lookup has a rule with the sought text in front of the one sought |
| NftInterleaving.EveryRunIsExact | go-qnatter/internal/forward/nftables_executor.go:37-214 | from any table, in any such interleaving, each chain holds exactly the foreign rules, the rules whose handles some forwarder holds, the one each searching forwarder is looking for, and those left behind by a refused delete or a failed lookup |
| NftInterleaving.EchoingIsUndisturbed | go-qnatter/internal/forward/nftables_executor.go:109-122 | a run in which insertions echo their handles is such a run, whatever is refused |
| NftInterleaving.OthersRulesStay | go-qnatter/internal/forward/nftables_executor.go:109-214 | no command of a forwarder, obeyed, refused or silent, removes a rule that this forwarder neither holds nor seeks |
| NftInterleaving.ForeignRulesStay | go-qnatter/internal/forward/nftables_executor.go:37-214 | over every such run, a rule of another program stays until that program deletes it |
| NftInterleaving.LookupIsHarmlessExactly | go-qnatter/internal/forward/nftables_executor.go:124-135 | a lookup and the delete after it spare every rule but the one sought if and only if no rule in front of that one has its text; otherwise the one sought stays |
| NftInterleaving.RunIsPlain | go-qnatter/internal/forward/nftables_executor.go:37-214 | its condition on the listing, handles in range and no `#` in a rule, holds after every such run if it does at first |
| NftInterleaving.SilentInsertStealsARule | go-qnatter/internal/forward/nftables_executor.go:109-135 | a run of four commands in which one forwarder deletes the rule another holds, whose text contains that of its own |
| NftInterleaving.StealingRun | go-qnatter/internal/forward/nftables_executor.go:37-135 | a run of eight actions to that end from any table before the first forwarder starts |
| UdpClientMap.UdpClientSet.TouchClient | go-qnatter/internal/forward/socket.go:295-303 | returns the socket of a known client and notes the time, and changes nothing for an unknown one |
| UdpClientMap.UdpClientSet.AddClient | go-qnatter/internal/forward/socket.go:306-315 | registers a socket only while fewer than max are registered, and says whether it did |
| UdpClientMap.UdpClientSet.ForgetClient | go-qnatter/internal/forward/socket.go:318-328 | removes the entry only if it still names this very socket, and says whether it did |
| UdpClientMap.UdpClientSet.SweepIdle | go-qnatter/internal/forward/socket.go:331-345 | removes exactly the expired entries and returns each of their sockets once |
| UdpClientMap.UdpClientSet.CloseAll | go-qnatter/internal/forward/socket.go:348-360 | empties the map and returns each registered socket once |
| UdpRelay.StepKeepsInv | go-qnatter/internal/forward/socket.go:181-270 | each step of loop, readers and sweeper keeps, for every socket, closes made plus closes still owed equal to one, and every other invariant of the protocol |
| UdpRelay.EveryRunConserves | go-qnatter/internal/forward/socket.go:181-360 | the same over every run |
| UdpRelay.RegisteredSocketsAreOpen | go-qnatter/internal/forward/socket.go:272-360 | in every interleaving at most max sockets are registered, none of them closed, none under two addresses, and no socket is closed twice |
| UdpRelay.EverySocketIsClosedOnce | go-qnatter/internal/forward/socket.go:181-360 | once closeAll has run and pending closes are done, every socket ever created was closed exactly once |
| UdpRelay.PendingClosesCanFinish | go-qnatter/internal/forward/socket.go:331-360 | from every state after closeAll the pending closes can be carried out, one step each |
| UdpRelay.EntriesAreNotStolen | go-qnatter/internal/forward/socket.go:306-328 | registering never replaces an entry, and forgetting a socket never removes a newer one under the same address |
| UdpRelay.IdleClientsGoExactly | go-qnatter/internal/forward/socket.go:296-345 | after the last traffic for a socket at time t, and as long as nobody else takes it out, it stays registered if and only if no sweep comes at t plus the idle time or later; the first that does takes it out and owes it a close |
| UdpRelay.OrphansExactly | go-qnatter/internal/forward/socket.go:219-270 | in every run, a registered socket has no reader if and only if its reader forgot it before it was registered |
| UdpRelay.ReaderCanBeGoneBeforeRegistration | go-qnatter/internal/forward/socket.go:219-225 | such a run |
| StunMessage.XorInPlace | go-qnatter/internal/stun/message.go:140-179 | the buffer becomes its XOR with the mask, byte by byte |
| StunMessage.ParseMappedAddress | go-qnatter/internal/stun/message.go:49-138 | the loop equals a walk over the attributes, error by error, whose meaning the next three rows give |
| StunMessage.PortIsMasked | go-qnatter/internal/stun/message.go:150-179 | for every port, the two bytes of the masked port are those of the port under the first two of the cookie, as an address is under all of it |
| StunMessage.BuildBindingRequest | go-qnatter/internal/stun/message.go:27-34 | the twenty bytes of a binding request with this transaction id |
| StunCodec.EncodedIsAccepted | go-qnatter/internal/stun/message.go:49-138 | any encoding of attributes with correct fingerprints and at least one address is accepted with the first address, whatever follows the attributes |
| StunCodec.AcceptedDecomposes | go-qnatter/internal/stun/message.go:49-138 | any accepted message is such an encoding plus fewer than four trailing bytes, with every fingerprint correct over exactly the bytes before it |
| StunCodec.AcceptsExactly | go-qnatter/internal/stun/message.go:49-138 | both directions: a message is accepted with an address if and only if it has such a decomposition |
| StunCodec.AddressRoundTrip | go-qnatter/internal/stun/message.go:140-179 | encoding an IPv4 or IPv6 address, plain or XORed, and parsing the attribute gives the address back |
| StunCodec.AddressForms | go-qnatter/internal/stun/message.go:140-179 | the two attribute types and the two families, as they are written |
| StunCodec.FingerprintForm | go-qnatter/internal/stun/message.go:102-138 | a fingerprint other than the sum of what stands before it is refused, and the right one is not |
| StunCodec.SampleIsAccepted | go-qnatter/internal/stun/message.go:49-138 | the eighty bytes of the IPv4 response of section 2.2 of RFC 5769 are accepted with 192.0.2.1 and port 32853 |
| StunTwin.ParseSTUNMappedAddress | go-qnatter/internal/check/check.go:797-850 | the second parser's loop equals its own walk |
| StunTwin.ParsersAgree | go-qnatter/internal/check/check.go:797-850 | whatever the first parser accepts with an IPv4 address, the second accepts with the same address and port |
| StunClient.Client.RotateServer | go-qnatter/internal/stun/client.go:123-130 | in place, the first server moves to the end |
| StunClient.Client.GetMapping | go-qnatter/internal/stun/client.go:46-103 | servers are asked in list order, each at most once, up to the first that answers; the array, the source and the initial source afterwards, in each of the outcomes |
| StunClient.ListAfterCall | go-qnatter/internal/stun/client.go:46-130 | after k failures and a success the array is the old one rotated by k with the successful server first; after total failure it is the old one |
| StunClient.AskedAre | go-qnatter/internal/stun/client.go:46-88 | a server is asked if and only if all before it failed and a transaction id was had for it |
| StunClient.CauseIs | go-qnatter/internal/stun/client.go:91-102 | after total failure the cause is a lost address if any attempt met one, else a lost device if any met that, else unknown |
| StunClient.AnchorIs | go-qnatter/internal/stun/client.go:46-103 | where a reset goes: to the source the client was made with if that is valid, else to the first valid inner address of a success |
| StunClient.SourceOverARun | go-qnatter/internal/stun/client.go:46-103 | over any run of calls, from any source, valid or not, the source is the inner address of the latest success, or where the latest reset since then went |
| StunClient.ResetRestoresExactly | go-qnatter/internal/stun/client.go:46-103 | over any run, a reset restores the source the client was made with if and only if that was valid or no earlier call has succeeded with a valid inner address |
| StunClient.ListOverARun | go-qnatter/internal/stun/client.go:46-130 | over any run of calls the array is the original one rotated by the total number of failures |
| StunClient.AnUnboundSourceIsNotRestored | go-qnatter/internal/stun/client.go:50-52 | two calls after which the reset has gone elsewhere |
| KeepAliveLoop.TrailingIsARun | go-qnatter/internal/engine/loop.go:64-77 | the number used for consecutive failures is at least n exactly if the last n attempts all failed |
| KeepAliveLoop.GoesOnAtEveryTick | go-qnatter/internal/engine/loop.go:56-104 | the loop goes on over a trace exactly if no prefix of it gives a reason to leave |
| KeepAliveLoop.LeavesExactly | go-qnatter/internal/engine/loop.go:62-103 | what each way of leaving takes: the last ticks, or rechecks, all failed up to the limit; the local address lost; another mapping seen |
| KeepAliveLoop.ChangeWasSeen | go-qnatter/internal/engine/loop.go:86-102 | the loop leaves for a changed mapping only if a recheck saw another one |
| KeepAliveLoop.AttemptsStayBelowTheLimit | go-qnatter/internal/engine/loop.go:70-95 | every reported attempt number is positive and below its limit |
| KeepAliveLoop.KeepSessionAlive | go-qnatter/internal/engine/loop.go:52-105 | for every trace the loop leaves at the first reason the trace gives, and for it; reports carry the current run of failures; STUN is asked again at exactly the keep-alive successes number R, 2R, 3R, ... |
| KeepAliveLoop.DefaultLimits | go-qnatter/internal/engine/loop.go:52-59 | without limits of the caller's: twenty keep-alives to a recheck, and three failures of either kind |
| KeepAliveLoop.ReachedIsFirst | go-qnatter/internal/engine/loop.go:56-104 | the exit taken is determined by the trace alone |
| SessionLedger.ReleasesMatch | go-qnatter/internal/engine/run_once.go:93-125 | in an orderly log each resource is released as often as it was taken, less one while it is held |
| SessionLedger.EverythingIsReleasedOnce | go-qnatter/internal/engine/run_once.go:93-125 | once nothing is held, every resource ever taken was taken once and released once |
| SessionLedger.EmptyHandedAt | go-qnatter/internal/engine/retry.go:19-42 | nothing is held at any sleep and at the return |
| SessionLedger.ReleasedInOrder | go-qnatter/internal/engine/run_once.go:100-125 | forwarder before keep-alive before port mapping |
| SessionEngine.ChosenMappingIsTheOneKeptAlive | go-qnatter/internal/engine/run_once.go:177-196 | the second observation's outer address is used unless the two inner addresses are valid and differ, and then the first mapping is used as it is; the inner address is the one the keep-alive socket is bound to; Unstable is reported exactly when the two disagree |
| SessionEngine.Session.Close | go-qnatter/internal/engine/run_once.go:100-125 | releases what is held, once each and in order, keeps an orderly log, returns the first error, and leaves nothing to release a second time |
| SessionEngine.StartSession | go-qnatter/internal/engine/run_once.go:138-289 | fails with the error of the first failing step; then everything taken was given back, and a resource was taken exactly if all steps before it succeeded; otherwise holds the keep-alive, the forwarder, and the port mapping if it was made |
| SessionEngine.StartErrorIs | go-qnatter/internal/engine/run_once.go:138-289 | which error a session that does not start ends with, in the order of the things it needs and asks for, and that it starts if none is missing or fails |
| SessionEngine.TakesExactly | go-qnatter/internal/engine/run_once.go:138-289 | which answers it takes for the socket, the forwarder and the port mapping each to be taken |
| SessionEngine.StopsAt | go-qnatter/internal/engine/run_once.go:138-289 | exactly the steps up to the failing one are reached |
| SessionEngine.RunLoop | go-qnatter/internal/engine/loop.go:29-52 | however a run ends, its log is orderly and nothing is held afterwards; its error is the start's, or the one for the loop's exit |
| SessionEngine.StableMappingIsKept | go-qnatter/internal/engine/run_once.go:177-196 | if the first two queries do not disagree about the inner address and every recheck sees what the second saw, the run does not end for a changed mapping |
| SessionEngine.InsideTheError | go-qnatter/internal/engine/loop.go:66-100 | which conditions are inside the error for each way of leaving the loop |
| SessionEngine.RetryDelay | go-qnatter/internal/engine/retry.go:61-77 | at least a second, at most an hour, fifteen seconds by default |
| SessionEngine.RetriedSentinels | go-qnatter/internal/engine/retry.go:44-52 | an error is retried by default if and only if one of the six conditions the program knows is inside it |
| SessionEngine.TurnIs | go-qnatter/internal/engine/retry.go:19-42 | after one run the engine sleeps exactly if the run was worth repeating and the context lives, goes on unless the sleep is cut short, and answers with the run's error exactly if the context lives and the run was not worth repeating |
| SessionEngine.KeepsTryingExactly | go-qnatter/internal/engine/retry.go:19-52 | with the default test for what is retried, the engine is still trying after a script of runs if and only if no context ended and each run either failed to start with a retried error, or left its loop for a changed mapping, a lost local address, failed keep-alives or a retried STUN failure, the changes only where the configuration does not exit on them |
| SessionEngine.RunWithRetry | go-qnatter/internal/engine/retry.go:19-42 | over any script of runs the whole log is orderly and nothing is held at the end; one sleep of the clamped delay after each run whose error is retried, and no other; the loop ends at the first run that is not retried, with its answer |
| Text.WordCharsAre | go-qnatter/internal/status/status.go:43-44 | the characters that stand for themselves in slugs and in variable names |
| Hexadecimal.HexCharsAre | go-qnatter/internal/status/status.go:75-77 | the hexadecimal digits read, and the first and last of those printed |
| RuntimeSlug.RuntimeSlug | go-qnatter/internal/status/status.go:34-77 | the loop equals the piecewise encoder |
| RuntimeSlug.DecodeUndoesEncode | go-qnatter/internal/status/status.go:34-57 | the encoder has a left inverse on names of characters up to U+FFFF and of U+D8000 to U+DFFFF |
| RuntimeSlug.SlugIsInjective | go-qnatter/internal/status/status.go:34-57 | so different such names have different slugs |
| RuntimeSlug.SlugAlphabet | go-qnatter/internal/status/status.go:34-57 | slugs are letters, digits and underscores only |
| RuntimeSlug.ByteForm | go-qnatter/internal/status/status.go:40-51 | the form of the escape of an ASCII character, on both sides |
| RuntimeSlug.RuneForm | go-qnatter/internal/status/status.go:40-51 | and of any other character |
| RuntimeSlug.AboveTheBoundCollides | go-qnatter/internal/status/status.go:34-57 | for every other character, the name up to U+FFFF that has the same slug |
| RuntimeSlug.SafeExactly | go-qnatter/internal/status/status.go:34-57 | so these are exactly the characters that share their slug with no other such name |
| RuntimeSlug.RuntimeSlugShell | qnatter/files/qnatter-common.sh:233-261 | the awk loop equals the shell encoder |
| RuntimeSlug.SlugsAgreeExactly | qnatter/files/qnatter-common.sh:233-261 | on ASCII names the two encoders agree if and only if the name nowhere has `_u` and four hex digits |
| StatusLine.EmitUnescaped | luci-app-qnatter/root/usr/libexec/qnatter-status:61-105 | the awk loop equals a recursive unescaper |
| StatusLine.HtmlCodes | luci-app-qnatter/root/usr/libexec/qnatter-status:62-71 | which four-digit codes the reader knows |
| StatusRoundTrip.JsonEscapeIsFlat | qnatter/files/qnatter-common.sh:263-265 | the chain of substitutions over records equals escaping each character on its own |
| StatusRoundTrip.UnescapeFlat | luci-app-qnatter/root/usr/libexec/qnatter-status:61-105 | the reader undoes the escaping and stops at the closing quote, whatever follows |
| StatusRoundTrip.KeyOccursOnce | luci-app-qnatter/root/usr/libexec/qnatter-status:106-121 | each searched key prefix occurs in the line once, whatever the fields contain |
| StatusRoundTrip.ReadsBackText | luci-app-qnatter/root/usr/libexec/qnatter-status:57-114 | every text field is read back as it was written, but for newlines at its end |
| StatusRoundTrip.ReadsBackPort | luci-app-qnatter/root/usr/libexec/qnatter-status:116-121 | every port field is read back as it was printed |
| StatusRoundTrip.PortIsKept | qnatter/files/qnatter-common.sh:267-278 | the numeral of every port up to 65535 is printed as it is, and with leading zeros loses them as long as there are five digits in all |
| Text.DecIsDecimal | qnatter/files/qnatter-common.sh:267-278 | numerals are decimal |
| StatusRoundTrip.PrintsPort | qnatter/files/qnatter-common.sh:267-278 | a text of one to five digits worth at most 65535 is printed as its value, and any other as 0 |
| StatusRoundTrip.ReadsBackNumber | luci-app-qnatter/root/usr/libexec/qnatter-status:116-121 | so a port written as a number is read back as that number |
| StatusRoundTrip.StatusRoundTrip | qnatter/files/qnatter-common.sh:267-311 | both for the eight fields of the line the script writes |
| StatusRoundTrip.StripsOnlyTrailingNewlines | luci-app-qnatter/root/usr/libexec/qnatter-status:57-114 | a text without a newline at its end loses nothing |
| GoStatusLine.UnescapeGoFlat | luci-app-qnatter/root/usr/libexec/qnatter-status:61-105 | what the reader makes of a text escaped by encoding/json, with or without HTML escaping, whatever follows it |
| GoStatusLine.GoCodes | go-qnatter/internal/status/status.go:105-110 | the codes encoding/json prints for quotes, backslashes, control characters, separators and, where asked to, HTML characters |
| GoStatusLine.GoReadsText | go-qnatter/internal/status/status.go:92-110 | a text field the Go program wrote is read back as it was, but for newlines at its end, if and only if it has no control character besides newline, return and tab, and neither U+2028 nor U+2029 |
| GoStatusLine.GoStatusRoundTrip | go-qnatter/internal/status/status.go:75-110 | this for each of the six text fields of the line under its key, an empty instance or message having been replaced, and the two ports without condition |
| Ipv4.NormalizeIPv4 | go-qnatter/internal/config/config.go:271-312 | accepts exactly one to four decimal parts in range, and prints the address that is the sum of the parts by their weights |
| Ipv4.OrOfFour | go-qnatter/internal/config/config.go:285-308 | shifting and or-ing four parts in range adds them up |
| Ipv4.SumFits | go-qnatter/internal/config/config.go:285-308 | the sum is below 2^32, so the conversion to 32 bits loses nothing |
| Ipv4.NormalizedIsStable | go-qnatter/internal/config/config.go:271-312 | normalising what was printed changes nothing |
| Ipv4.SpellingOfDotted | go-qnatter/internal/config/config.go:309-312 | what is printed for an address is one of its spellings |
| ForwardTarget.TargetIsAsConfigured | go-qnatter/internal/engine/run_once.go:324-342 | for a target address accepted in any spelling and a valid inner address, the target is the configured address and port, or the inner address for the wildcards: the fallback is never taken |
| ForwardTarget.FallbackNeedsAnInvalidAddress | go-qnatter/internal/engine/run_once.go:337-340 | parsing fails if and only if the target is a wildcard and the inner address is not valid |
| RouteSlots.TextHasUsed | qnatter/files/qnatter.init:230-239 | the substring test on the list of used slots is membership |
| RouteSlots.SlotsAre | qnatter/files/qnatter.init:217-228 | the slots are the numerals from 0 to 4095 without leading zeros |
| RouteSlots.NextRouteSlot | qnatter/files/qnatter.init:241-253 | finds the least free slot, and none only if all 4096 are in use |
| RouteSlots.PrepareRouteSlots | qnatter/files/qnatter.init:269-306 | each instance keeps its valid free slot, or gets the least free one, or fails because its write fails or no slot is free; success means no failure and a commit that did not fail when something changed |
| RouteSlots.SlotsAreDistinct | qnatter/files/qnatter.init:269-306 | no two instances get the same slot, whatever fails |
| RouteSlots.ValidSlotsAreKept | qnatter/files/qnatter.init:269-284 | a valid stored slot is kept unless an earlier instance got it |
| RouteSlots.EveryInstanceGetsASlot | qnatter/files/qnatter.init:286-306 | up to 4096 instances all get one if the writes succeed |
| RouteSlots.SecondPassChangesNothing | qnatter/files/qnatter.init:286-306 | after a pass that gave every instance a slot, another one with whatever is loaded then gives the same slots and changes nothing if and only if every section reads the slot it was given |
| RouteSlots.ReadsOwnExactly | qnatter/files/qnatter.init:255-284 | after a pass a section reads the slot it was given if and only if its name is plain, or nothing replaces what was loaded for it and that is the slot |
| RouteSlots.TwoPassesExactly | qnatter/files/qnatter.init:719-798 | both for the two passes of one reload: the second changes nothing if and only if each section has a plain name, or has no twin and was given the slot loaded for it before |
| RouteSlots.TwinsChangeAgain | qnatter/files/qnatter.init:255-306 | two sections read through one variable whose slots change in the second pass |
| RoutePolicy.PoliciesAreDistinct | qnatter/files/qnatter.init:308-320 | different slots give different marks, tables and priorities |
| RoutePolicy.EndsOfTheRange | qnatter/files/qnatter.init:316-319 | the mark, table and priority of the first slot and of the last |
| RoutePolicy.AssignRoutePolicies | qnatter/files/qnatter.init:308-320 | each enabled instance gets the policy of the slot it reads, or of the next counter value if that is not valid |
| RoutePolicy.StartsWithItsSlot | qnatter/files/qnatter.init:255-320 | an instance is started with the slot it was given if and only if its name is plain, or no other instance replaces what is loaded for it and what is loaded is that slot, or is not valid while the counter stands at that slot |
| RoutePolicy.OwnSlotsShareNothing | qnatter/files/qnatter.init:255-320 | two instances started with the slots they were given share no part of a policy |
| RoutePolicy.SharesExactly | qnatter/files/qnatter.init:308-320 | two enabled instances are started with one policy if and only if they read the same valid slot, or one reads a valid slot at which the counter stands for the other; if not, no part is shared |
| RoutePolicy.TwinsAlwaysShare | qnatter/files/qnatter-common.sh:36-43 | a section whose variable is the name of another is always started with that one's policy |
| RoutePolicy.AHyphenCanShareAPolicy | qnatter/files/qnatter.init:255-320 | two instances, one named with a hyphen, that are started with the same policy |
| RoutePolicy.OwnRulesAreRecognised | qnatter/files/qnatter.init:166-195 | the flush filter recognises the rule of every slot and extracts its own priority, mark and table |
| RoutePolicy.RecognisedExactly | qnatter/files/qnatter.init:166-195 | of the rules of that form exactly those with the package's marks and a numbered table are taken, with their own priority, mark and table: any other program's rule is spared |
| RoutePolicy.UnmarkedRulesAreSpared | qnatter/files/qnatter.init:166-195 | and so is every line without a mark |
| RoutePolicy.FlushRouteRules | qnatter/files/qnatter.init:166-195 | the loop issues, for exactly the recognised rules in order, the delete by full selectors, the delete by priority where that is refused, and the flush of the rule's table |
| RoutePolicy.OwnRulesAreFlushed | qnatter/files/qnatter.init:166-195 | the rule and the table of every slot are among what is deleted |
| ServiceReload.FilesAre | qnatter/files/qnatter.init:496-532 | writing the fingerprints of all wanted instances loses none and disturbs no other file |
| ServiceReload.DeclaredIs | qnatter/files/qnatter.init:843-848 | what procd runs after the declarations, under the start contract stated in the model |
| ServiceReload.DeletesExactly | qnatter/files/qnatter.init:817-834 | of the running instances, phases 2 and 3 delete exactly the removed and the changed |
| ServiceReload.FullReloadKeeps | qnatter/files/qnatter.init:793-854 | a running instance keeps its process if and only if its fingerprint is unchanged |
| ServiceReload.FullReloadDescribes | qnatter/files/qnatter.init:793-854 | a full reload makes exactly the wanted instances run and the record describe them, also where the list did not |
| ServiceReload.HotExactlyWhenServed | qnatter/files/qnatter.init:719-762 | the hot path is taken if and only if the wanted set and every fingerprint are those that run |
| ServiceReload.Service.ReloadService | qnatter/files/qnatter.init:764-854 | exactly when the service is stopped, the reload skipped, hot, or failed, and otherwise full; the whole state and the deletions of each; where nothing fails, the state the next rows speak of; all rules of the package are flushed exactly when the service is stopped or a full reload finds nothing wanted |
| ServiceReload.MissingSectionStops | qnatter/files/qnatter-common.sh:48-61 | an absent option with the empty default reads as 0 |
| ServiceReload.YesWords | qnatter/files/qnatter-common.sh:48-61 | exactly five words mean yes, whether read or taken by default |
| ServiceReload.EditsKeepTheDescription | qnatter/files/qnatter.init:764-854 | over any sequence of edits with reloads the record goes on describing what runs, which is what was last asked for |
| ServiceReload.UntouchedInstancesKeepTheirProcess | qnatter/files/qnatter.init:764-854 | an instance that no edit touches keeps its process throughout |
| ServiceReload.ReloadAfterStop | qnatter/files/qnatter.init:675-681 | after a stop, a reload brings the service back if and only if hot reload is off, or something changed, or nothing is wanted |
| Discovery.DiscoverLocations | go-qnatter/internal/upnp/discovery.go:105-158 | on every endless stream the loop ends, with the first 64 locations of the filter over the first 256 replies; it fails exactly if a read fails before that is enough |
| Discovery.LocationsStep | go-qnatter/internal/upnp/discovery.go:125-157 | the filter over the whole sequence can be computed one reply at a time: a reply that fills a buffer that can grow is dropped, sources are the first sixteen heard, locations are distinct |
| Discovery.ListenedIsSettled | go-qnatter/internal/upnp/discovery.go:145-150 | whether a source is among the first sixteen never changes later |
| Discovery.DistinctIsDistinct | go-qnatter/internal/upnp/discovery.go:151-156 | no location is returned twice |
| Discovery.Buffer | go-qnatter/internal/upnp/discovery.go:128-137 | the buffer only ever has one of the sizes 4096, 8192, 16384, 32768 and 65507 |
| Discovery.BufferGrows | go-qnatter/internal/upnp/discovery.go:128-137 | it has grown once for every reply dropped, at most four times |
| Discovery.KeptWhole | go-qnatter/internal/upnp/discovery.go:125-142 | a reply is dropped if and only if it fills a buffer that can grow, and kept as it was sent otherwise |
| UdpNatType.CheckUDPNATType | go-qnatter/internal/check/check.go:495-581 | the loop asks exactly the probes of the specification and returns the classifier's verdict, or the error if one of those probes meets a cancelled context |
| UdpNatType.RetainedIs | go-qnatter/internal/check/check.go:515-560 | the second mapping retained is that of the first later responder that is not skipped, or else the last |
| UdpNatType.OverIsFinal | go-qnatter/internal/check/check.go:515-560 | once the loop is left, the remaining servers are not asked and do not matter |
| UdpNatType.EvidenceIsFromOneServer | go-qnatter/internal/check/check.go:562-581 | the verdict depends on the first mapping and one later server only, from which both the second mapping and the evidence come |
| UdpNatType.ClassifiesTheNat | go-qnatter/internal/check/check.go:495-581 | behind a NAT given by its mapping and filtering behaviour, or none, with or without a firewall, the verdict is what it is, if one later server can send from another address and port |
| UdpNatType.WithoutCapableServers | go-qnatter/internal/check/check.go:495-581 | and if none can, it is the most restrictive of its kind |

## Left out

- NftForwarder.NftablesForwarder.Start: is stated for a forwarder that holds no handles, since the engine makes a new one for each session and starts it once (go-qnatter/internal/engine/run_once.go:206-234); starting a running forwarder again is not modelled.
- NftForwarder.NftablesForwarder.Start: the base chains' jump rules and the `ip rule` state are not part of the table; Stop does not undo the `ip rule` state, and the model does not say it does.
- NftInterleaving.LookupIsHarmlessExactly: handles up to 2^31 - 1 and rules without a `#`, as nft accepts them; every command keeps a table like that (`NftInterleaving.RunIsPlain`).
- NftKernel.NewestRuleIsFound: handles up to 2^31 - 1, the range in which the program's conversion succeeds on every platform.
- The flush of the chains by the init script is not an action of the interleaving model; foreign programs there insert and delete single rules.
- UdpRelay.RegisteredSocketsAreOpen: datagram contents, write failures and read deadlines are not modelled; a reader may fail at any time.
- StunMessage.ParseMappedAddress: CRC-32 is any function from bytes to numbers.
- StunClient.Client.GetMapping: dialling and reading are the scripted outcome of each attempt; error texts are not modelled.
- KeepAliveLoop.KeepSessionAlive: runs on a finite trace; the end of the trace stands for the end of what is observed. Renewing the port mapping cannot end the loop and appears only as a count.
- SessionEngine.RunWithRetry: is watched for as many runs as its script has; an endless loop is covered by all its finite beginnings.
- SessionEngine.StartSession: forwarders are taken when created, as `Session.Close` sees them; a forwarder whose own Start failed is still closed once. What `Notify` and the port checks do is their answer.
- SessionEngine.Session.Close: with an injected keep-alive each session closes the same object; the log counts each session's taking of it.
- RuntimeSlug.SlugsAgreeExactly: slugs before the cut at 180 characters.
- StatusRoundTrip.StatusRoundTrip: characters are awk's single bytes; in `gsub` the replacement of a backslash is two backslashes, as busybox awk and gawk have it.
- RuleMeaning.DnatRule: addresses are IPv4 addresses in dotted form and marks numbers, as nft reads them in table ip; the order of hooks and connection tracking itself are the kernel's.
- GoStatusLine.GoReadsText: texts are valid UTF-8, which the encoder would otherwise repair; a character is read whole, as no byte of one beyond ASCII means anything to the reader.
- ForwardTarget.TargetIsAsConfigured: printing and parsing IPv6 addresses is taken to round-trip.
- RoutePolicy.StartsWithItsSlot: `uci` is there, commits to its own store and leaves the loaded configuration alone; sections have different names, and whether an instance is enabled is what is read for it.
- RoutePolicy.RecognisedExactly: for rules printed as iproute2 prints a rule with a mark and a table and no other selector, and a table not named "lookup".
- ServiceReload.Service.ReloadService: section names have different slugs, nobody else edits the configuration while a reload runs, and ubus and the file system work; a start that fails leaves any state. The reload's own preparation may store a new slot; the start of phase 4 then loads what is stored, so that one fingerprint for both phases is the code's only for sections with plain names, or whose slot did not change.
- Discovery.DiscoverLocations: parsing a reply is any function of its text and source.
- UdpNatType.CheckUDPNATType: addresses are compared as opaque values.
- TCP relaying, HTTP, SOAP and XML, dialling, timers, DNS, process handling, webhooks, the LuCI front end and packaging.
- `CheckTCPNATType`, `CheckTCPCone`, `RunOnce`, `parseSSDPResponse` and the parsing of options: they would only add easy members.
