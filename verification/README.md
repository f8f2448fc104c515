# A model of the hard parts of OpenSSH

This project models the stateful core of the OpenSSH copy under `applications/openssh` and proves
what it is for: flow control and multiplexing of channels, multi-step user authentication, the
wire forms, the packet cipher and address arithmetic. `dafny verify dfyconfig.toml` checks all of it.

Each component comes in two layers. The first gives every handler as a function on values and
proves theorems about all inputs, all runs or all reachable states. The second writes the handlers
as the C code does, as loops and updates of fields and arrays, and proves each of them to compute
the first.

| files | component |
|---|---|
| `Channel`, `FlowControl` | one channel end (windows and half-close automaton) and two ends joined by links |
| `Mux`, `MuxSessions`, `MuxObject` | the channel table and the mux proxy |
| `PollFds` | the descriptors of a channel and the pollfd array shared by all channels |
| `Socks` | the incremental SOCKS4, 4A and 5 decoders |
| `MethodLists`, `UserAuth`, `AuthRuns`, `Authctxt` | AuthenticationMethods lists, the request/response machine and its runs |
| `Bits`, `Bitmap` | bitwise arithmetic on numbers; the growable bitmap |
| `Wire`, `AuthOptions` | sshbuf encodings; key options, their wire form and their merge |
| `ChaCha`, `ChaChaPoly` | the stream cipher and the packet cipher |
| `Addr`, `AddrMatch` | 32- and 128-bit arithmetic on words; CIDR matching |
| `AtomicIo`, `DhGroups` | resumed transfers; the choice of a Diffie-Hellman group |

## How the outside world is modelled

- Results of `read`, `write`, `poll`, of method verdicts, of devices and of random draws are
  parameters or events; theorems hold for all of them.
- 32- and 64-bit wrap-around is explicit wherever it can occur.
- Buffers are byte sequences. The ChaCha block function and Poly1305 are parameters.
- A pointer to a channel is its slot and an allocation serial, so that a pointer kept after a free
  differs from one to a later channel in the same slot.

## Where the code does not do what one would expect

Each comes with an input at which it happens and with the exact condition.

- `sshauthopt_merge` keeps no expiry when the primary set has none, although its comment says that
  the earliest wins (`AuthMerge.ExpiryIsDropped`, `AuthMerge.ExpiryOfSession`); as every session
  starts from a set without one, no session has one (`AuthMerge.EverySession`).
- `bitmap_set_bit` accepts bit 2^24, whose encoding `bitmap_from_string` refuses
  (`Bitmap.LastBitIsRefused`, `Bitmap.EncodingFits`).
- A mux client that is marked dead is freed under another type, so its proxies are not detached
  (`MuxSessions.DeadClientLeavesProxy`, `MuxTable.MarkDeadKeeps`).
- A CLOSE of one mux client counts for the channel of another if it names its remote id
  (`MuxSessions.ForeignCloseMoves`, `MuxSessions.OnlyCloseMoves`).
- A mux client that leaves before the server has confirmed its channel ends the whole process at the
  next collection (`MuxSessions.UnansweredOpenIsFatal`, `MuxSessions.CollectionIsFatal`).
- Extended data for an end that takes none is never credited (`FlowControl.StderrLost`,
  `FlowControl.ConservedExactly`), so a window of it stops the channel for good
  (`FlowControl.StderrStops`, `FlowControl.StoppedForGood`).
- `choose_dh` passes over the wanted size once a larger one was seen (`DhGroups.WantedSizeSkipped`,
  `DhGroups.ExactSizeChosen`).
- An AuthenticationMethods entry with a submethod for a method that has none admits the method and
  is fatal on its success (`AuthRuns.PasswordSubmethodIsFatal`, `AuthRuns.UnwantedExactly`).
- `atomiciov6` moves nothing when the first entry is empty (`AtomicIo.EmptyFirstStops`).

`channel_prepare_pollfd` would enter a socket other than the read descriptor with no events; no
channel of the code has such a socket (`PollFds.PollIsLossless`, `PollFds.EveryChannelIsServed`).

## Model

| member | source | states |
|---|---|---|
| `FlowControl.FlowIsSafe` | applications/openssh/channels.c:2136-2328 | in every run of two peers over FIFO links, with any outcome of every read and write, no packet exceeds the window or packet limit, no adjust overflows, no window wraps, nothing reaches a freed channel, and each direction whose receiver can still write satisfies the conservation law of section 5.2 of RFC 4254, for windows and for the two byte streams |
| `FlowControl.RunInv` | applications/openssh/channels.c:3350-3459 | the joint invariant of both directions holds in every reachable state and the negotiated limits never change |
| `FlowControl.ActInv` | applications/openssh/channels.c:2896-2999 | each handler of either end, run on any reachable state, keeps the invariant of both directions and raises no fault |
| `FlowControl.ArriveMoves` | applications/openssh/channels.c:3350-3622 | a message delivered in order moves window, credit and bytes exactly once on the receiving side |
| `FlowControl.LocalMoves` | applications/openssh/channels.c:2050-2328 | every local handler of an open channel moves window, credit and bytes exactly once |
| `FlowControl.LossesAreAccounted` | applications/openssh/channels.c:2302-2328 | also with failed writes and refused stderr data, window and bytes are accounted for down to the last octet, delivery is always a prefix of what was read, and losses occur only after a failed write or on an end that takes no stderr |
| `FlowControl.ConservedExactly` | applications/openssh/channels.c:3350-3459 | over every run a direction is conserved exactly if no step of its receiver took non-empty stderr data without an open descriptor for it and no write of pending output failed there |
| `FlowControl.BrokenByStep` | applications/openssh/channels.c:3436-3441 | the same for one step from any reachable conserved state, read off the message and the descriptors before the step |
| `FlowControl.WindowLostForGood` | applications/openssh/channels.c:3436-3441 | in every continuation of every reachable state the sender's window, what is in flight and the credit fall short of the receiver's window by at least the stderr data dropped so far |
| `FlowControl.StderrLost` | applications/openssh/channels.c:3436-3441 | a concrete beginning in which one octet of stderr is read, sent and dropped, after which no continuation restores the sender's window or conservation |
| `FlowControl.StoppedForGood` | applications/openssh/channels.c:3436-3441 | once a whole window of stderr data was dropped, the sender's window is zero and no credit is on the way in every continuation |
| `FlowControl.StderrStops` | applications/openssh/channels.c:3409-3459 | every channel whose peer takes no stderr has a run, constructed here, after which its sender can never send again |
| `FlowControl.EofDeliversAll` | applications/openssh/nchan.c:128-148 | a receiver whose writes succeed closes its output after EOF only when it has delivered every octet the sender read, and likewise stderr |
| `FlowControl.CheckReopens` | applications/openssh/channels.c:2302-2328 | after channel_check_window on a drained end the window is fully open, up to what a failed write took away, or at least half open and within three packets of the maximum |
| `FlowControl.StalledSenderHasCredit` | applications/openssh/channels.c:2302-2328 | in every run, a sender at window zero with nothing in flight to a drained healthy receiver has at least half a window of credit on the way once the receiver has checked its window |
| `FlowControl.FlowNeverSticks` | applications/openssh/channels.c:2896-2963 | every run that has not begun to close a direction has a continuation that delivers everything the sender has read, data and stderr: no reachable deadlock |
| `FlowControl.Deliver` | applications/openssh/channels.c:2896-2963 | the same from any flowing state, with the continuation constructed |
| `ChannelObject.Channel.DoHandleRfd` | applications/openssh/channels.c:2051-2133 | the in-place read takes a prefix of what is readable, never beyond the peer's window, and leaves the state of the step function |
| `ChannelObject.Channel.DoPollInputOpen` | applications/openssh/channels.c:2896-2963 | computes the step: DATA of the permitted length, or EOF when drained |
| `ChannelObject.Channel.DoPollExtendedRead` | applications/openssh/channels.c:2970-2999 | computes the step for stderr data |
| `ChannelObject.Channel.DoHandleWfd` | applications/openssh/channels.c:2136-2224 | computes the step: written octets leave the buffer and are credited |
| `ChannelObject.Channel.DoHandleEfdWrite` | applications/openssh/channels.c:2227-2253 | computes the step for stderr output |
| `ChannelObject.Channel.DoCheckWindow` | applications/openssh/channels.c:2302-2328 | computes the step: consumed octets become window and an adjust message |
| `ChannelObject.Channel.DoInputData` | applications/openssh/channels.c:3350-3406 | computes the step of arriving data, including both refusals and the faked consumption |
| `ChannelObject.Channel.DoInputExtendedData` | applications/openssh/channels.c:3409-3459 | computes the step of arriving stderr data |
| `ChannelObject.Channel.DoInputWindowAdjust` | applications/openssh/channels.c:3595-3622 | computes the step of arriving credit, including the overflow exit |
| `ChannelObject.Channel.DoObufEmpty` | applications/openssh/nchan.c:151-169 | computes the closing of a drained output |
| `ChannelObject.Channel.DoWriteFailed` | applications/openssh/nchan.c:308-324 | computes the closing of an output that failed, with EOW for sessions |
| `ChannelObject.Channel.DoRcvdIeof` | applications/openssh/nchan.c:255-265 | computes the step of an arriving EOF |
| `ChannelObject.Channel.DoRcvdOclose` | applications/openssh/nchan.c:268-305 | computes the step of an arriving CLOSE |
| `ChannelObject.Channel.DoGarbageCollect` | applications/openssh/nchan.c:333-371 | computes the sending of CLOSE and the release of the channel |
| `MuxTable.StepKeeps` | applications/openssh/channels.c:3084-3313 | each operation on the channel table keeps the invariant (slot i holds the channel named i, every proxy and every permission belongs to a mux client that is still there, the table is bounded) exactly if it does not mark a channel dead that a proxy or permission still points to |
| `MuxTable.RunKeeps` | applications/openssh/channels.c:450-762 | the invariant holds after every run of allocation, proxying, freeing and collection without such an event |
| `MuxTable.EveryRunKeeps` | applications/openssh/channels.c:450-762 | in particular after every such run from the empty table of a new process |
| `MuxTable.FreeKeeps` | applications/openssh/channels.c:699-762 | freeing any channel keeps the invariant: a mux client detaches its proxies and clears its permissions first |
| `MuxTable.NewKeeps` | applications/openssh/channels.c:450-506 | allocation keeps the invariant, uses a free slot and moves no other channel |
| `MuxTable.MarkDeadKeeps` | applications/openssh/nchan.c:327-330 | marking a channel dead keeps the invariant exactly if nothing refers to it |
| `MuxTable.DownstreamKeeps` | applications/openssh/channels.c:3084-3229 | no packet of a live mux client breaks the invariant |
| `MuxSessions.SessionsAreIndependent` | applications/openssh/channels.c:3084-3313 | over every run with server-unique remote ids in which a client closes only channels of its own, each proxied channel evolves as if its client were alone: the packets of all other clients can be left out |
| `MuxSessions.OnlyCloseMoves` | applications/openssh/channels.c:3195-3206 | a packet of any client moves a session exactly if it is a CLOSE naming that session's remote id, and not a repetition |
| `MuxSessions.ForeignCloseMoves` | applications/openssh/channels.c:3195-3206 | a concrete table with two clients in which the CLOSE of one marks the channel of the other |
| `MuxSessions.SessionsFollowTheirIds` | applications/openssh/channels.c:3084-3313 | without that assumption, each session is a function of the CLOSE packets with its remote id, whoever sends them, of the server's messages for its slot, and of the fate of its client |
| `MuxSessions.StepSeen` | applications/openssh/channels.c:3084-3313 | the same for each single operation |
| `MuxSessions.StepUnique` | applications/openssh/channels.c:267-278 | remote ids stay unique as long as the server announces only unused ones |
| `MuxSessions.OpenBegins` | applications/openssh/channels.c:3114-3137 | a client's OPEN reaches the server with only the id replaced, by a slot that was free, and starts a session for that client and id |
| `MuxSessions.ConfirmBegins` | applications/openssh/channels.c:3138-3165 | a client's OPEN_CONFIRMATION likewise, for the remote id it confirms |
| `MuxSessions.MessagesReachTheirOpener` | applications/openssh/channels.c:3238-3313 | in every later state of any such run, each server message for a served slot goes to the client that opened it, under the id it opened it with, payload unchanged, and that client is still there |
| `MuxSessions.EndsWhenBothClosed` | applications/openssh/channels.c:3195-3206 | over every such run in which its client stays, a proxied channel is freed exactly when CLOSE has passed in both directions, in either order, the upward one in a packet of its own client |
| `MuxSessions.DrainingEnds` | applications/openssh/channels.c:707-720 | over every run that goes on and in which no client closes its id, a channel whose client has left is freed exactly by a collection after the server's CLOSE; when a run does not go on is `CollectionIsFatal` |
| `MuxSessions.CollectionIsFatal` | applications/openssh/nchan.c:206-228 | collecting a channel whose client has left ends the process exactly if the channel never learnt its remote id and no CLOSE was sent for it |
| `MuxSessions.NeverCollected` | applications/openssh/channels.c:2525-2545 | nothing that happens later saves such a channel: it stays so in every run that goes on, and none of those collects it |
| `MuxSessions.UnansweredOpenIsFatal` | applications/openssh/channels.c:707-720 | a concrete run in which a client opens a channel, leaves before the answer, and the next collection is fatal |
| `MuxSessions.FreeSeen` | applications/openssh/channels.c:699-762 | freeing a channel ends its own session, detaches the sessions of a freed client and touches no other |
| `MuxSessions.DeadClientLeavesProxy` | applications/openssh/channels.c:2392-2396 | a concrete run in which a mux client with an open proxy is marked dead and collected, after which the proxy points to nothing |
| `MuxObject.ChannelTable.NewChannel` | applications/openssh/channels.c:450-506 | the search loop and the growth by ten compute the allocation step, including its fatal exit |
| `MuxObject.ChannelTable.DetachProxies` | applications/openssh/channels.c:707-720 | the loop detaches exactly the proxies of the freed client |
| `MuxObject.ChannelTable.RemoveForwardings` | applications/openssh/channels.c:667-695 | the loop clears exactly the permissions of the freed client and cancels each of them on the server, in order |
| `MuxObject.CancelledAreCleared` | applications/openssh/channels.c:667-695 | what is cancelled is exactly what disappears from the permissions |
| `MuxObject.ChannelTable.FreeChannel` | applications/openssh/channels.c:699-762 | computes the freeing step |
| `MuxObject.ChannelTable.ByRemoteId` | applications/openssh/channels.c:267-278 | finds the first channel with the remote id |
| `MuxObject.ChannelTable.ProxyDownstream` | applications/openssh/channels.c:3084-3229 | computes the step of a client packet in all cases, with the table unchanged when it is refused |
| `MuxObject.ChannelTable.ProxyUpstream` | applications/openssh/channels.c:3238-3313 | computes the step of a server message and whether it was proxied |
| `PollFds.PollIsLossless` | applications/openssh/channels.c:2638-2889 | packing the descriptors of all channels, polling and unpacking gives a channel exactly the readiness it asked for, under every answer of the kernel, if and only if its socket is not polled or is its read descriptor; no consistency check fails |
| `PollFds.EveryChannelIsServed` | applications/openssh/channels.c:379-445 | after every life of its descriptors a channel has a socket of that kind, so it gets exactly what it asked for; the fatal test hits exactly a stderr descriptor that is the read but not the write descriptor |
| `PollFds.LifeKeepsSock` | applications/openssh/channels.c:396-399 | over every sequence of registering, closing and reconnecting, an open socket is both the read and the write descriptor |
| `PollFds.ClosedMeanwhile` | applications/openssh/channels.c:509-553 | a descriptor closed between packing and unpacking does no harm: the remaining ones still get exactly what they asked for |
| `PollFds.ClosedOnce` | applications/openssh/channels.c:556-570 | channel_close_fds closes every open descriptor, each of them once |
| `PollFds.ChannelFds.RegisterFds` | applications/openssh/channels.c:383-399 | computes the registering step |
| `PollFds.ChannelFds.CloseFd` | applications/openssh/channels.c:509-553 | computes the closing step on every field that holds the descriptor |
| `PollFds.ChannelFds.CloseFds` | applications/openssh/channels.c:556-570 | leaves no descriptor open and closes the distinct ones in order |
| `PollFds.OwnEntries` | applications/openssh/channels.c:2638-2780 | the entries of a channel lie together at the place its indices were made for |
| `PollFds.PreparePollfd` | applications/openssh/channels.c:2638-2738 | writes the entries of one channel behind those already there and records their indices |
| `PollFds.PreparePoll` | applications/openssh/channels.c:2741-2780 | the loop packs the whole table behind the reserved entries within four entries per slot |
| `PollFds.AfterPollOne` | applications/openssh/channels.c:2827-2886 | the four lookups with the checks of fd_ready compute the readiness of one channel, or the fatal exit |
| `PollFds.AfterPoll` | applications/openssh/channels.c:2810-2889 | the loop computes the readiness of every channel, or reports a failed check |
| `Socks.SlicingIsIrrelevant` | applications/openssh/channels.c:1661-1705 | for every byte string and every way of slicing it, the SOCKS4, 4A and 5 handlers end in the same state: same rejection, or same host, port, replies and leftover payload |
| `Socks.DecisionIsStable` | applications/openssh/channels.c:1389-1633 | no decision of any of the decoders is revised by further input |
| `Socks.Socks5RoundTrip` | applications/openssh/channels.c:1508-1633 | a SOCKS5 client offering "no authentication" reaches exactly the destination it encoded (sections 3 and 4 of RFC 1928), with the payload after it untouched |
| `Socks.Socks4ARoundTrip` | applications/openssh/channels.c:1389-1497 | a SOCKS4A client reaches the host it named exactly when its header ends within the scan limit; otherwise the channel dies |
| `Socks.Socks4RoundTrip` | applications/openssh/channels.c:1389-1497 | a SOCKS4 client reaches the address it gave exactly when its user name ends within the scan limit; otherwise the channel dies |
| `SocksObject.DynamicChannel.CheckTerminated` | applications/openssh/channels.c:1412-1433 | the scan loop finds out whether the header is complete, incomplete or too long |
| `SocksObject.DynamicChannel.DecodeSocks4` | applications/openssh/channels.c:1389-1497 | computes the SOCKS4 decision |
| `SocksObject.DynamicChannel.OffersNoAuth` | applications/openssh/channels.c:1536-1546 | the loop finds whether "no authentication" is offered |
| `SocksObject.DynamicChannel.DecodeGreeting` | applications/openssh/channels.c:1528-1560 | computes the greeting decision |
| `SocksObject.DynamicChannel.DecodeRequest` | applications/openssh/channels.c:1559-1617 | computes the request decision for all three address types |
| `SocksObject.DynamicChannel.RunToQuiescence` | applications/openssh/channels.c:1661-1705 | running the handler until it wants more input computes the settled state |
| `AuthRuns.SuccessCompletesAList` | applications/openssh/auth2.c:357-437 | with AuthenticationMethods configured, every run that succeeds is for a valid user and has completed a configured, fully enabled list: its entries were proved in order by messages of that run, where a response proves the device whose question it answered and a request the key it carries (section 5.1 of RFC 4252) |
| `AuthRuns.RunJudged` | applications/openssh/auth2.c:264-354 | in every run the recorded successes are exactly the proofs given by its messages, in order, and the failure counter is exactly the number of its failed messages, both read off each message and the state before it by an independent reference |
| `AuthRuns.ListsOnlyShrink` | applications/openssh/auth2.c:646-726 | in every run the remaining lists are suffixes of the configured ones, and what was dropped from each was met in order by successes |
| `AuthRuns.KeysAreUsedOnce` | applications/openssh/auth2.c:761-807 | no two messages of a run prove possession of keys with equal public parts |
| `AuthRuns.LimitsHold` | applications/openssh/auth2.c:402-459 | in every run the failure counter is the number of messages that completed a failed, non-partial, client-caused attempt other than a first "none"; in a run not cut off it is below max_authtries, and attempts are capped |
| `AuthRuns.IdentityIsFixed` | applications/openssh/auth2.c:264-354 | user, service and validity never change after the first request |
| `AuthRuns.DevicesAskedOnce` | applications/openssh/auth2-chall.c:152-186 | at two points of one keyboard-interactive exchange the same device is asked exactly if every response in between was followed by a further question of that device |
| `UserAuth.NextDeviceGood` | applications/openssh/auth2-chall.c:152-186 | the next device is one the lists allow now and that the exchange has not used before, it becomes used, and used devices stay used |
| `AuthRuns.SuccessIsAlwaysWanted` | applications/openssh/auth2.c:704-726 | if only keyboard-interactive entries carry submethods, no method ever succeeds that the lists do not ask for |
| `AuthRuns.SubmethodIsFatal` | applications/openssh/auth2.c:720-725 | a list of one entry with a submethod, for a method without any, lets the method in, cannot be met by it, and the run dies of its success |
| `AuthRuns.PasswordSubmethodIsFatal` | applications/openssh/auth2.c:720-725 | in particular the list "password:x" and a correct password |
| `AuthRuns.UnwantedExactly` | applications/openssh/auth2.c:704-726 | a success ends in the fatal "method not in AuthenticationMethods" exactly if lists are configured and none of the remaining ones begins with an entry it satisfies |
| `AuthRuns.AllowedIsFound` | applications/openssh/auth2.c:467-485 | a method the remaining lists allow can be consumed from them, unless they offer it only with a submethod that was not given |
| `UserAuth.RunKeeps` | applications/openssh/auth2.c:264-460 | the invariant of lists, keys, counters and exchanges holds in every reachable state |
| `MethodLists.StartsWithMeansFirstEntry` | applications/openssh/auth2.c:645-670 | each answer of list_starts_with says exactly what the first entry of the list is |
| `MethodLists.RemoveDropsFirstEntry` | applications/openssh/auth2.c:677-695 | remove_method succeeds exactly if the first entry is the method or method:submethod, and leaves the strictly shorter suffix with the remaining entries |
| `MethodLists.UpdateListsMeaning` | applications/openssh/auth2.c:703-726 | found, complete and every remaining list are as removal from each list says |
| `MethodLists.UpdateShrinks` | applications/openssh/auth2.c:703-726 | the total remaining length never grows and strictly decreases with each successful update |
| `MethodLists.AllowedMeaning` | applications/openssh/auth2.c:467-485 | a method is allowed exactly if some remaining list starts with it |
| `MethodLists.ValidIsWellFormed` | applications/openssh/auth2.c:557-597 | an accepted list has no empty entry, so its entries are its comma-separated fields |
| `MethodLists.CheckMethodsValid` | applications/openssh/auth2.c:557-597 | the loop accepts exactly the lists all of whose fields name a known, enabled method |
| `AuthObject.Authctxt.SetupMethodsLists` | applications/openssh/auth2.c:606-643 | the loop keeps exactly the valid lists and fails if none is left |
| `AuthObject.Authctxt.UpdateMethodsLists` | applications/openssh/auth2.c:703-726 | the loop computes the update of all lists |
| `AuthObject.Authctxt.IsMethodAllowed` | applications/openssh/auth2.c:467-485 | the loop decides whether a method is allowed now |
| `AuthObject.Authctxt.IsKeyUsed` | applications/openssh/auth2.c:789-807 | the loop decides whether the public key was used before |
| `AuthObject.Authctxt.ScanDevices` | applications/openssh/auth2-chall.c:161-178 | the scan ends on the last matching device and uses up all that match |
| `AuthObject.Authctxt.GetNextDevice` | applications/openssh/auth2-chall.c:152-186 | the loop over device names computes the next device |
| `AuthObject.Authctxt.UserauthFinish` | applications/openssh/auth2.c:356-460 | computes the step after a method ran, including all fatal exits |
| `AuthObject.Authctxt.InputUserauthRequest` | applications/openssh/auth2.c:264-354 | computes the step of a request |
| `AuthObject.Authctxt.InputInfoResponse` | applications/openssh/auth2-chall.c:289-360 | computes the step of a keyboard-interactive response |
| `AuthObject.Authctxt.UserauthPubkey` | applications/openssh/auth2-pubkey.c:156-264 | a key already used is refused and an accepted one is recorded |
| `Bitmap.Replay` | applications/openssh/bitmap.c:64-214 | any sequence of set, clear, zero and decode, with or without memory, leaves exactly the mathematical set those operations describe, reports success exactly as described, and every bitmap_test_bit then agrees |
| `Bitmap.LastBitIsRefused` | applications/openssh/bitmap.c:188-196 | bit 2^24 is set and written out, and what was written is refused when read |
| `Bitmap.DecodeEncode` | applications/openssh/bitmap.c:167-214 | bitmap_from_string after bitmap_to_string restores the same set |
| `Bitmap.EncodeDecode` | applications/openssh/bitmap.c:167-214 | bitmap_to_string after bitmap_from_string returns the input without leading zero octets |
| `Bitmap.EncodingFits` | applications/openssh/bitmap.c:81-98 | the encoding can be read back exactly if bit 2^24 is clear, although bitmap_set_bit accepts that bit |
| `Bitmap.HighestMember` | applications/openssh/bitmap.c:140-159 | bitmap_nbits is the largest member plus one, or zero for the empty set |
| `Bitmap.NBytesIsMinimal` | applications/openssh/bitmap.c:161-165 | the encoding has no leading zero octet and loses none |
| `Bitmap.Bitmap.constructor` | applications/openssh/bitmap.c:37-51 | a new bitmap is empty |
| `Bitmap.Bitmap.Zero` | applications/openssh/bitmap.c:64-69 | empties the set and keeps the array |
| `Bitmap.Bitmap.TestBit` | applications/openssh/bitmap.c:71-79 | answers membership |
| `Bitmap.Bitmap.Reserve` | applications/openssh/bitmap.c:81-98 | growth keeps every word and adds zero words; fails exactly above 2^24 or without memory |
| `Bitmap.Bitmap.SetBit` | applications/openssh/bitmap.c:100-113 | adds exactly one member or, on failure, nothing |
| `Bitmap.Bitmap.Retop` | applications/openssh/bitmap.c:116-123 | lowers top to the highest non-zero word |
| `Bitmap.Bitmap.ClearBit` | applications/openssh/bitmap.c:125-138 | removes exactly one member |
| `Bitmap.Bitmap.ShiftUp` | applications/openssh/bitmap.c:151-158 | the shifting loop counts the digits of a word |
| `Bitmap.Bitmap.CountBits` | applications/openssh/bitmap.c:140-159 | computes the largest member plus one |
| `Bitmap.Bitmap.ToString` | applications/openssh/bitmap.c:167-186 | writes exactly the minimal big-endian encoding, or nothing if it does not fit |
| `Bitmap.Bitmap.FromString` | applications/openssh/bitmap.c:188-214 | replaces the set by the decoded one; on failure the set is unchanged |
| `AuthOptions.RoundTrip` | applications/openssh/auth-options.c:797-912 | for every record with byte flags, a 64-bit expiry and a tunnel device of at least -1, deserialising its encoding gives the record back and consumes exactly its bytes (section 5 of RFC 4251) |
| `AuthOptions.UntrustedHides` | applications/openssh/auth-options.c:797-847 | the bytes shown to an untrusted reader are equal exactly if flags, expiry and tunnel device are |
| `AuthOptions.Serialise` | applications/openssh/auth-options.c:797-847 | appends exactly the encoding, redacted for an untrusted reader, and succeeds exactly if it fits |
| `AuthOptions.Deserialise` | applications/openssh/auth-options.c:849-912 | computes the decoding and leaves the rest of the buffer |
| `AuthOptions.SerialiseArray` | applications/openssh/auth-options.c:705-730 | the loop appends exactly the encoded array |
| `AuthOptions.DeserialiseArray` | applications/openssh/auth-options.c:732-771 | decodes an array, refusing counts above INT_MAX |
| `AuthOptions.DeserialiseEntries` | applications/openssh/auth-options.c:751-758 | the loop reads exactly that many strings |
| `AuthOptions.SerialiseNullable` | applications/openssh/auth-options.c:773-782 | appends the encoding of an optional string |
| `AuthOptions.DeserialiseNullable` | applications/openssh/auth-options.c:784-795 | decodes an optional string |
| `AuthMerge.PermitNeedsAll` | applications/openssh/auth-options.c:598-606 | over any successful session a permission holds at the end exactly if every option set granted it |
| `AuthMerge.EverySession` | applications/openssh/sshd.c:2241-2243 | every session starts from the key defaults, so each default permission is kept exactly if all sets grant it, verification is required exactly if some set requires it, user presence is never waived and no expiry is ever recorded |
| `AuthMerge.ExpiryIsDropped` | applications/openssh/auth-options.c:611-616 | a key with any expiry merged into a fresh session leaves it without one |
| `AuthMerge.DemandNeedsOne` | applications/openssh/auth-options.c:607-608 | user verification is required at the end exactly if some set required it |
| `AuthMerge.CommandIsFixed` | applications/openssh/auth-options.c:618-643 | activation goes on exactly as long as all forced commands agree, and the command once set stands |
| `AuthMerge.ExpiryOfSession` | applications/openssh/auth-options.c:611-616 | the session expires at the earliest expiry exactly if the first set had one or no set has; if the first had none, it never expires |
| `AuthMerge.EarliestIsMinimum` | applications/openssh/auth-options.c:611-616 | the reference expiry is the minimum of the non-zero ones |
| `AuthMerge.ExpiryNeverIncreases` | applications/openssh/auth-options.c:611-616 | an expiry that is set never moves later |
| `AuthMerge.GroupingIsIrrelevant` | applications/openssh/auth-options.c:533-655 | both groupings of three sets fail together and agree on every field but the expiry |
| `AuthMerge.GroupingOfExpiry` | applications/openssh/auth-options.c:611-616 | the groupings differ on the expiry exactly if the middle set has none and the last would shorten the first |
| `AuthMerge.Merge` | applications/openssh/auth-options.c:533-655 | filling a blank record field by field computes the merge |
| `Wire.GetPutBE` | applications/openssh/sshbuf-getput-basic.c:391-437 | reading back the octets of a number gives the number |
| `Wire.PutGetBE` | applications/openssh/sshbuf-getput-basic.c:47-97 | and conversely |
| `Wire.GetPutCStr` | applications/openssh/sshbuf-getput-basic.c:270-303 | a string is read back and exactly its encoding is consumed |
| `Wire.CStrAccepts` | applications/openssh/sshbuf-getput-basic.c:270-303 | a C string is accepted exactly if it has no NUL before its last octet, and is read up to that NUL |
| `Wire.Sshbuf.Put` | applications/openssh/sshbuf-getput-basic.c:325-336 | appends all or nothing |
| `Wire.Sshbuf.PutString` | applications/openssh/sshbuf-getput-basic.c:513-529 | appends the length and the octets, or nothing |
| `Wire.Sshbuf.GetString` | applications/openssh/sshbuf-getput-basic.c:213-268 | consumes a string or, on failure, nothing |
| `Wire.Sshbuf.GetCString` | applications/openssh/sshbuf-getput-basic.c:270-303 | consumes a string with no NUL except at its end, or nothing |
| `ChaCha.CryptedTwice` | applications/openssh/chacha.c:88-218 | encrypting twice from the same counter is the identity |
| `ChaCha.AdvanceCounts` | applications/openssh/chacha.c:183-187 | the two counter words with their carry are one 64-bit counter |
| `ChaCha.Chacha.EncryptBytes` | applications/openssh/chacha.c:88-218 | the block loop, possibly in place, xors octet k with octet k of the key stream for every length, writes nothing else and advances the counter by the blocks used |
| `ChaCha.Chacha.CryptBlocks` | applications/openssh/chacha.c:104-217 | the loop encrypts every octet of the text with its own octet of the key stream, counting the blocks it used |
| `ChaCha.Chacha.CryptBlock` | applications/openssh/chacha.c:104-206 | one block of at most 64 octets |
| `ChaCha.Chacha.KeySetup` | applications/openssh/chacha.c:54-77 | loads constants and key words and leaves counter and nonce |
| `ChaCha.Chacha.IvSetup` | applications/openssh/chacha.c:79-86 | sets counter and nonce |
| `ChaChaPoly.OpenInvertsSeal` | applications/openssh/cipher-chachapoly.c:68-120 | for every key, sequence number, header length and packet, opening yields p exactly if the packet is the sealing of p |
| `ChaChaPoly.LengthAgrees` | applications/openssh/cipher-chachapoly.c:123-136 | the length read ahead equals the first four octets of the plaintext |
| `ChaChaPoly.BlocksNeverMeet` | applications/openssh/cipher-chachapoly.c:80-112 | the block inputs that Poly1305 key, header and text are computed from never coincide: key and text blocks of any packets, any blocks of distinct sequence numbers, and within a packet header blocks if the two keys differ |
| `ChaChaPoly.PacketDepends` | applications/openssh/cipher-chachapoly.c:80-112 | the Poly1305 key and the packet body are functions of the cipher on exactly those block inputs |
| `ChaChaPoly.PacketOctets` | applications/openssh/cipher-chachapoly.c:80-112 | every octet of the Poly1305 key, header and text is masked by its own octet of its own block |
| `ChaChaPoly.TextOctetsDiffer` | applications/openssh/chacha.c:88-218 | no two octets of one text are masked by the same octet of the same block |
| `ChaChaPoly.EqualKeysMeet` | applications/openssh/cipher-chachapoly.c:80-112 | with equal keys a header does share the block of its Poly1305 key |
| `ChaChaPoly.ChachaPoly.Seal` | applications/openssh/cipher-chachapoly.c:68-120 | writes the sealed packet, possibly in place, and nothing beyond the tag |
| `ChaChaPoly.ChachaPoly.Open` | applications/openssh/cipher-chachapoly.c:68-120 | writes the opened packet, possibly in place; a wrong tag leaves the destination untouched |
| `ChaChaPoly.ChachaPoly.GetLength` | applications/openssh/cipher-chachapoly.c:123-136 | computes the read-ahead length, failing below four octets |
| `ChaChaPoly.New` | applications/openssh/cipher-chachapoly.c:39-51 | two 256-bit keys from exactly 64 octets, or nothing |
| `AddrMatch.NetMatchMeans` | applications/openssh/addr.c:493-506 | a host matches exactly if family and scope agree, the prefix length is valid, the network has no host bits, and the host lies between the network and its all-ones address |
| `AddrMatch.WalkReachesMatches` | applications/openssh/addr.c:304-324 | incrementing from the network, 2^(W-l) times, reaches exactly the matching hosts |
| `AddrMatch.WalkIncreases` | applications/openssh/addr.c:252-324 | in strictly increasing addr_cmp order |
| `AddrMatch.CmpOrders` | applications/openssh/addr.c:252-283 | addr_cmp orders one family by number and then scope |
| `AddrMatch.HostIsZeroMeans` | applications/openssh/addr.c:332-343 | the host part is zero exactly if masking changes nothing |
| `AddrMatch.BlockEnds` | applications/openssh/addr.c:359-369 | the all-ones address is the last of the block of 2^(W-l) addresses and lies in the address space |
| `Addr.MaskedValue` | applications/openssh/addr.c:166-250 | and-ing with a network mask rounds down to a multiple of 2^(W-l), or-ing with a host mask rounds up to the end of that block, across word boundaries |
| `Addr.HostPart` | applications/openssh/addr.c:195-228 | an address is its network part plus its host part |
| `Addr.IncrementAdds` | applications/openssh/addr.c:304-324 | increment with carry is addition of one modulo the address space |
| `AddrMatch.Address.Netmask` | applications/openssh/addr.c:166-193 | computes the mask words for every valid length of either family |
| `AddrMatch.Address.MaskLoop` | applications/openssh/addr.c:182-189 | the word loop of the mask |
| `AddrMatch.Address.Invert` | applications/openssh/addr.c:140-159 | complements the words in use |
| `AddrMatch.Address.SetAnd` | applications/openssh/addr.c:207-228 | computes the conjunction, also with the destination as first operand; as second operand it is overwritten first and the first one is left |
| `AddrMatch.Address.SetOr` | applications/openssh/addr.c:230-250 | computes the disjunction, likewise |
| `AddrMatch.Address.Compare` | applications/openssh/addr.c:252-283 | computes the comparison octet by octet |
| `AddrMatch.Address.Increment` | applications/openssh/addr.c:304-324 | increments in place |
| `AddrMatch.Address.HostToAllOnes` | applications/openssh/addr.c:359-369 | fills the host part in place, or fails and changes nothing |
| `AddrMatch.Address.Matches` | applications/openssh/addr.c:493-506 | computes the match |
| `AtomicIo.IoVIsIo` | applications/openssh/atomicio.c:104-172 | under every pattern of short transfers, EINTR and EAGAIN, scatter/gather moves the same bytes in the same order with the same outcome as one buffer holding the concatenation |
| `AtomicIo.AdvanceLeaves` | applications/openssh/atomicio.c:149-164 | after each transfer the remaining entries hold exactly the bytes not yet moved and start with a non-empty one |
| `AtomicIo.FaultMeansDishonest` | applications/openssh/atomicio.c:155-159 | the EFAULT branch is reached exactly if a call moved more than it was asked to |
| `AtomicIo.EmptyFirstStops` | applications/openssh/atomicio.c:127 | with an empty first entry nothing is moved, so the equality holds only if there is nothing to move |
| `AtomicIo.IoMovesPrefix` | applications/openssh/atomicio.c:50-93 | what was moved is a prefix, on success everything, and the return value counts it |
| `AtomicIo.AtomicIo6` | applications/openssh/atomicio.c:50-93 | the loop computes that outcome |
| `AtomicIo.AtomicIoV6` | applications/openssh/atomicio.c:104-172 | the nested loops on the copied entries compute the scatter/gather outcome, including EINVAL |
| `AtomicIo.Resume` | applications/openssh/atomicio.c:147-164 | skips completed entries and moves a partial one up in place |
| `DhGroups.ScanIsGood` | applications/openssh/dh.c:173-196 | over every moduli file the first pass picks a size of at least wantbits if one is admissible, none admissible lies strictly between, otherwise the largest; the count is the number of lines of that size, and zero exactly if nothing is admissible |
| `DhGroups.ExactSizeChosen` | applications/openssh/dh.c:185-192 | the wanted size itself is picked exactly if it comes before every larger admissible one |
| `DhGroups.WantedSizeSkipped` | applications/openssh/dh.c:185-192 | two lines in both orders: in one the wanted size is picked, in the other it is passed over |
| `DhGroups.FindMeans` | applications/openssh/dh.c:208-224 | the second pass finds a line exactly if the file has more than `which` of that size, and then the one with `which` before it |
| `DhGroups.SecondPassFinds` | applications/openssh/dh.c:205-229 | on an unchanged file every draw finds a line of the picked size |
| `DhGroups.FirstPass` | applications/openssh/dh.c:173-196 | the loop computes the pick and its count |
| `DhGroups.SecondPass` | applications/openssh/dh.c:208-224 | the loop computes the line found |
| `DhGroups.ChooseDh` | applications/openssh/dh.c:158-231 | both passes together, with the fallback when nothing is suitable or the line disappeared |

## Left out

- Datagram channels, filters, forced closing and draining, reverse dynamic forwarding: they discard bytes without credit or charge differently at the two ends.
- Larval channels, tty read quirks and detach callbacks of a channel; in the flow-control model, descriptors that are set after opening.
- The compatibility flags of old peers, such as data after EOF.
- AuthRuns.SuccessIsAlwaysWanted: the condition on the configuration is sufficient only, as whether the fatal exit is reached also depends on the order in which methods succeed; the exact condition for each success is AuthRuns.UnwantedExactly.
- The insides of the authentication methods (PAM, GSSAPI, Kerberos, passwords, certificates): each is an oracle for its verdict.
- Parsing of authentication requests below the level of method, user and service.
- sshauthopt_parse, sshauthopt_from_cert, sshauthopt_copy and authorized_keys lines.
- AuthOptions.Serialise: does not model failure of memory allocation.
- The twenty rounds of the ChaCha block function, Poly1305 itself, and the word-wise form of the xor, which is modelled octet by octet.
- MuxObject.ChannelTable.RemoveForwardings: records which forwardings are cancelled, not the octets of the cancel-tcpip-forward requests.
- MuxObject.ChannelTable.ProxyUpstream: does not model the length-prefixed framing of what is queued for a mux client, nor a failure to queue it.
- PollFds.AfterPoll: does not model POLLNVAL, which the kernel reports only for descriptors that are not open.
- PollFds.ChannelFds.RegisterFds: does not model close-on-exec, non-blocking mode and terminals.
- Local channels in the mux model beyond their type, remote id and CLOSE flags.
- Text forms of addresses, socket addresses and name resolution in addr.c.
- AtomicIo.AtomicIo6: does not model the wait in poll between retries.
- DhGroups.ChooseDh: lines of the moduli file are already parsed into a size or unusable; reading of primes and generators is not modelled.
- Windows, buffers and timeouts of the mux client sockets, X11 and agent forwarding, sessions, terminals and logging.
