# SCDT CTF Archive: a verified model

The archive runs two programs. `ctf_archive` is the API server: administrators
configure challenges, guests redeem codes and start challenges. `challd` is the
privileged daemon behind a UNIX socket: it hands each guest session an address, starts
a container, routes a WireGuard peer to it, and takes everything down again when a
timer, a shutdown signal or the container's own exit says so.

This project models three parts of that system in Dafny 4.11 and proves what they
promise. `dafny verify dfyconfig.toml` checks all of it.

**The session lifecycle** (`Lifecycle*.dfy`, `Addresses.dfy`, `SessionCode.dfy`). The
daemon is a transition system: connections, the shared address bits, the installed
network resources and the running containers change one atomic step at a time, in any
interleaving. Every external call may fail, and a failing call may or may not have
taken effect. Theorems are about every run and every reachable state. The number of
slots is a parameter; where `u8` arithmetic matters it lies between 1 and 254 (the
daemon is built with 6). `SessionCode` holds the body of one session task as it is
written, statement after statement, with any steps of the others between its calls, and
proves that each of its executions is a path of the transition system. `Addresses` holds
the allocator as a class over its array.

The closed tracker being seen empty and `main` resuming are two moments: a handler that
was accepted before the shutdown can spawn its session between them.

Panics are followed to their end. A failed call kills its task, and the address with it.
A `Container` dropped with its id panics again in `drop`; when that happens while the
failed connect in `shutdown` is already unwinding, the whole daemon aborts.

**The start request and its reply** (`Utf8.dfy`, `Wire.dfy`, `WireCode.dfy`,
`Ports.dfy`, `Challenges.dfy`, `Delivery.dfy`, `Separators.dfy`, `Reply.dfy`). A port map
goes through truncating casts and two parallel SQL arrays, over the socket and into
Docker's port bindings; the answer brings back a WireGuard configuration. Functions give the byte
formats, methods are the loops that build and read them, and the theorems cover all
inputs, oversized ones included.

**The guest codes** (`GuestCodes.dfy`). Inserting a code starts a timer that nothing
cancels. The set is compared, over every interleaving, with the map it stands for.

Where the code and its documentation differ, the model follows the code:

- `configure_docker` is documented to answer 404 for an unknown challenge and 400 for
  too many ports. The update of no row succeeds, and the CHECK constraints ask for
  array dimension 0, which is NULL and never rejects; neither answer is ever given.
- The second assertion in `start` and `host_demo` is meant to compare the non-null
  elements, but it counts all of them, so it repeats the first.
- `relinquish_addr` asserts one address more than the array has.

## Model

| member | source | states |
|---|---|---|
| LifecycleInvariant.StepKeepsInv | challd/src/main.rs:143-217 | the ownership and resource invariant is inductive over every step, failed calls included |
| LifecycleInvariant.CallMatchesProgress | challd/src/container.rs:32-107 | each install or removal command moves the network exactly as the task's progress says, whether it succeeds, fails, or fails after taking effect |
| LifecycleTheorems.EveryCallMayFail | challd/src/container.rs:30-107 | at each external call success, failure, and failure after the call has acted are possible, and nothing else |
| LifecycleTheorems.CallChanges | challd/src/container.rs:30-107 | what each call changes if it acts, reported as a success or not, and which failures kill the task or the daemon |
| LifecycleTheorems.EveryWakeUp | challd/src/interface.rs:99-104 | a supervisor can be woken by its timer, by its container, and by the token exactly once that is cancelled |
| LifecycleTheorems.EveryStopAnswer | challd/src/container.rs:86-97 | the three answers to a stop request and what each says about the container |
| LifecycleTheorems.EveryoneElse | challd/src/main.rs:99-231 | when connections, exits, the cancellation, the empty tracker and the return to main are possible |
| LifecycleOrder.InstallOrder | challd/src/container.rs:25-79 | a waiting guest session won its address, reached Docker, added the eth42 address, created, started and inspected its container, added its rule and its peer, each successfully, in that order, and each step changed what it names |
| LifecycleOrder.TeardownOrder | challd/src/interface.rs:99-113 | a finished guest session woke, removed its peer, reached Docker, attempted its stop, deleted its rule and its address and cleared its bit, in that order, and each step changed what it names |
| LifecycleOrder.DemoOrder | challd/src/container.rs:30-55 | a waiting demo reached Docker, created and started its container, in that order |
| LifecycleOrder.DemoTeardown | challd/src/container.rs:81-97 | a finished demo woke, reached Docker and attempted its stop, in that order |
| LifecycleOrder.EthWhileRunning | challd/src/container.rs:32-55 | whenever a guest's container runs and its session has not deleted the eth42 address, that address is installed exactly once |
| LifecycleTheorems.Ownership | challd/src/address_manager.rs:20-34 | in every reachable state a bit is set if and only if some handler, session or dead session owns its address; owners are unique; owned addresses lie in 1..n |
| LifecycleTheorems.ReleaseInBounds | challd/src/address_manager.rs:31-34 | every reachable relinquish indexes inside the array, on a set bit, although the assertion admits N+1 |
| LifecycleTheorems.Nesting | challd/src/container.rs:32-71 | peer implies DNAT rule implies eth42 address implies set bit, at most one of each per address, in every reachable state |
| LifecycleTheorems.InstalledByOwner | challd/src/interface.rs:80-113 | as many entries of each kind are installed for an address as the stage of its one owner says, and none beside them |
| LifecycleHistory.InstalledByOwnCall | challd/src/container.rs:32-71 | every eth42 address, DNAT rule and peer present in a reachable state was installed by an effective call of the very connection that owns its address |
| LifecycleTheorems.CommandsMeetTheirTarget | challd/src/container.rs:99-107 | no add command meets an existing entry, every delete command finds exactly one, and the bit is cleared only once nothing is left |
| LifecycleTheorems.Capacity | challd/src/main.rs:143-179 | set bits equal live plus dead holders, so guest sessions plus dead holders never exceed n |
| LifecycleTheorems.DeadHoldersNeverFall | challd/src/main.rs:155-217 | an address lost to a dead task stays lost |
| LifecycleHistory.TeardownBetweenTakes | challd/src/interface.rs:106-110 | between two takes of one address the earlier session removed its peer, attempted its stop, deleted its rule and its address and cleared its bit, in that order; the new session finds nothing installed |
| LifecycleHistory.DeadAddressIsLost | challd/src/container.rs:86-107 | an address held by a dead session keeps its bit and is never taken again |
| LifecycleHistory.EveryHolderTook | challd/src/address_manager.rs:20-29 | whoever has or had an address won it at a fetch_or that found the slot free |
| LifecycleHistory.SuccessfulScan | challd/src/address_manager.rs:20-29 | before winning an address a scan saw every lower slot in use, each at its own probe |
| LifecycleHistory.FailedScan | challd/src/address_manager.rs:20-29 | BUSY is answered only after every slot was seen in use |
| LifecycleHistory.BusyExactlyWhenRetaken | challd/src/address_manager.rs:20-29 | all n slots are in use when BUSY is answered if and only if every slot released during the scan was won again before the answer |
| LifecycleHistory.BusyMeansFull | challd/src/main.rs:145 | so if nothing was released during a failed scan, all n slots are in use when BUSY is answered |
| LifecycleWitnesses.BusyWhileNeverFull | challd/src/main.rs:145 | without that condition it is false: a run answers BUSY although one of two slots was free at every moment |
| LifecycleHistory.ScanAlone | challd/src/address_manager.rs:20-29 | run alone, a scan takes the least free address, and fails only if none is free |
| LifecycleHistory.CompleteSession | challd/src/main.rs:155-217 | from any stage a guest session whose calls succeed reaches its end, gives back its own address and touches no other connection or bit |
| LifecycleShutdown.MeasureDrops | challd/src/main.rs:229-231 | after cancellation every step of anything strictly decreases a measure over all connections and containers |
| LifecycleShutdown.TrackedCanMove | challd/src/interface.rs:99-113 | after cancellation every unfinished tracked task has an enabled step, wherever it is |
| LifecycleShutdown.DrainBound | challd/src/main.rs:229-231 | once cancelled, at most the measure's value of further steps can happen |
| LifecycleShutdown.TrackerDrains | challd/src/main.rs:229-231 | a run that cannot go on after cancellation is bounded by the measure and has seen tracker.wait return if and only if no connect in a shutdown failed; otherwise it was aborted |
| LifecycleWitnesses.DrainCanAbort | challd/src/container.rs:81-85 | for any number of slots, a run that is cancelled and then aborted by a shutdown that cannot connect, its container left running |
| LifecycleShutdown.LeftWhenEmpty | challd/src/main.rs:143-155 | whenever the tracker is empty, addresses are held only by unspawned handlers and dead tasks, and only dead tasks have anything installed |
| LifecycleShutdown.CleanWhenEmpty | challd/src/main.rs:229-231 | without failures the network is then empty, and a bit is set if and only if an unspawned handler holds it |
| LifecycleReturn.LeftAtReturn | challd/src/main.rs:229-231 | when main resumes, the tracker had been seen empty; sessions still alive were unspawned handlers at that moment, and whatever is installed belongs to them or to dead tasks |
| LifecycleReturn.CleanReturn | challd/src/main.rs:229-231 | after a run without failures whose tracker was just seen empty: every failure-free way to go on until main resumes ends with every task done, every bit clear and nothing installed, and just so with every container shut down, if and only if every connection is by now finished, refused, out of slots to probe or about to be refused |
| LifecycleReturn.CleanIfHopeless | challd/src/container.rs:81-85 | from such a moment on everything stays clean and every container built has had its id taken by one shutdown, at the return of tracker.wait too |
| LifecycleWitnesses.LateSessionLeft | challd/src/main.rs:143-155 | a run without failures in which main resumes around a session with its address installed |
| LifecycleCustody.IdConserved | challd/src/container.rs:142-146 | over every run each connection builds at most one container, whose id is still held, taken by exactly one shutdown, or dropped by exactly one panic |
| LifecycleCustody.CustodyOfTheDead | challd/src/container.rs:142-146 | a failure before create has returned leaves no container, one up to the connect in shutdown drops it with its id, a later one does not |
| LifecycleCustody.EveryContainerShutDown | challd/src/container.rs:81-85 | without failures the drop check never fires, and whenever the tracker is empty every built container, guest or demo, has had its id taken by exactly one shutdown; CleanIfHopeless carries this to the return of tracker.wait |
| LifecycleContainers.RunsUnlessExited | challd/src/container.rs:55 | from its start to its stop, and for ever if its task died in between, a container runs if and only if it has not exited by itself |
| LifecycleContainers.OutlivesExactly | challd/src/container.rs:86-97 | once its stop was attempted, guest or demo, a container runs if and only if that stop failed without effect while it was running, with an error other than 404, and it has not exited since |
| LifecycleContainers.OutlivesOnlyAfterStopError | challd/src/container.rs:86-97 | so a finished session's container still runs only if the run holds its failed stop |
| LifecycleContainers.StopErrorOutlives | challd/src/container.rs:94-96 | and then it can: the whole teardown completes around the running container |
| LifecycleWitnesses.ContainerLeftBehind | challd/src/container.rs:86-97 | a run that ends so: the session finished, its address free again, its container running |
| LifecycleRequests.OwnersSentGuestRequests | challd/src/main.rs:112-153 | every owner of an address sent bytes that start with a well-sized guest request |
| LifecycleRequests.RefusalsAreDeserved | challd/src/main.rs:112-145 | a refused connection got code 1 exactly for bytes no header starts, 2 exactly for a header without a message, 3 exactly for an accepted guest request, and never any other code |
| Addresses.AddressManager.constructor | challd/src/address_manager.rs:9-18 | all flags start clear |
| Addresses.AddressManager.TakeNextAddr | challd/src/address_manager.rs:20-29 | returns the least free address and sets its flag alone; none exactly when all are set |
| Addresses.AddressManager.RelinquishAddr | challd/src/address_manager.rs:31-34 | clears one flag, or panics: on the index for N+1, on the assertion elsewhere |
| SessionCode.Task.Create | challd/src/container.rs:25-79 | each execution of create, whatever other tasks do between its calls, follows the transition system to a container with its id, or dies having built none |
| SessionCode.Task.AddTempPeer | challd/src/interface.rs:80-113 | the peer is installed, the supervisor waits, the peer is removed; a failure leaves the container to the drop check |
| SessionCode.Task.Cleanup | challd/src/main.rs:169-179 | the closure ends with the id taken and the address given back, or dies with the custody the path records |
| SessionCode.Task.Execute | challd/src/main.rs:155-217 | every execution of the task, whatever fails and whoever interferes between its calls, is a path of the transition system that ends finished, dead or aborted, with the container id where the path says |
| Utf8.RoundTrip | challd/src/main.rs:133-139 | decoding the UTF-8 encoding of any text gives the text |
| Utf8.Canonical | challd/src/main.rs:133-139 | only encodings are accepted: overlong forms, surrogates and truncations are refused |
| Utf8.CharBytes | challd/src/main.rs:133-139 | the bytes of a character in each of the four ranges of RFC 3629, by division alone |
| Utf8.LengthBound | ctf_archive/src/schema.rs:36-37 | a text takes at most four bytes a character, so a 63-character name fits the length byte |
| WireTheorems.DecodeOfEncode | ctf_archive/src/challd.rs:56-71 | what the daemon reads from any message with a fitting name, wrapped port counts included |
| WireTheorems.RoundTripExactly | challd/src/main.rs:112-142 | a request comes back and nothing behind it is consumed, if and only if the name takes at most 255 bytes and there are fewer than 10 mappings |
| WireTheorems.AcceptedIsCanonical | challd/src/main.rs:112-142 | an accepted stream is the encoding of its request plus the remainder |
| WireTheorems.VerdictMeaning | challd/src/main.rs:112-142 | accepted, MALFORMED and INVALID_PORT each characterised without the decoder |
| WireTheorems.UniquelyDecodable | challd/src/ports.rs:31-57 | a stream starts with at most one well-sized message |
| WireTheorems.PrefixFree | challd/src/ports.rs:31-57 | no well-sized message is a strict prefix of another |
| WireTheorems.Layout | ctf_archive/src/challd.rs:48-62 | the position and value of every field in plain arithmetic, the guest code byte by byte, and the exact length the buffer is allocated at |
| WireTheorems.MappingOffset | ctf_archive/src/challd.rs:64-71 | mapping i occupies the five bytes at 5i |
| WireTheorems.MappingLayout | ctf_archive/src/challd.rs:64-71 | container port and host port, each low byte first, then 0 for TCP and 1 for UDP |
| WireTheorems.ReadsLittleEndian | challd/src/ports.rs:41-42 | both multi-byte reads weigh the bytes by powers of 256, low byte first |
| WireCode.BuildMessage | ctf_archive/src/challd.rs:45-71 | the loop builds exactly the encoding of the request |
| WireCode.ByteStream.ReadPortMappings | challd/src/ports.rs:31-57 | the loop returns what the format says and stops right behind it, or fails where it does not match |
| WireCode.ByteStream.ReadRequest | challd/src/main.rs:112-142 | the handler's reads give the format's verdict and leave the remainder |
| Decimal.Injective | challd/src/ports.rs:12-17 | different numbers print differently |
| Decimal.PrintsExactly | challd/src/ports.rs:12-17 | a text is what is printed for a number if and only if it is digits without a leading zero that stand for that number |
| Ports.AsStringExactly | challd/src/ports.rs:12-17 | the key is the decimal port followed by "/tcp" or "/udp" |
| Ports.HostIpExactly | challd/src/ports.rs:65-69 | the host address is "10.4.2." and the decimal address, or "0.0.0.0" for a demo |
| Ports.AsStringInjective | challd/src/ports.rs:12-17 | port and protocol can be read off the key |
| Ports.IntoHashmap | challd/src/ports.rs:61-77 | the loop inserts every mapping's binding in order, so each container port is bound to the host port its last mapping says |
| Ports.LastMappingWins | challd/src/ports.rs:61-77 | every key names a mapping's container port in decimal, and each container port and protocol is bound to the host port, in decimal, of its last mapping, on the given host address |
| Ports.DistinctKeepsAll | challd/src/ports.rs:61-77 | distinct container ports keep one entry each |
| Challenges.CastsInvert | ctf_archive/src/challenges.rs:283 | u16 to i16 and back, and i16 to u16 and back, lose nothing, and both keep the number modulo 65536 |
| Challenges.PackPorts | ctf_archive/src/challenges.rs:352-361 | in any iteration order the two vectors list every exposed port once with its protocol |
| Challenges.Stored | ctf_archive/src/schema.rs:26-40 | a column of 63 characters takes a text exactly if it has no NUL and nothing but spaces behind the 63rd, and keeps its first 63 |
| Challenges.NothingLost | ctf_archive/src/challenges.rs:279-284 | flattening separately loses no element and keeps every element with its partner if and only if the nulls of the two arrays are aligned |
| Challenges.FlattenThenZip | ctf_archive/src/challenges.rs:282-284 | and then the zipped lists pair the arrays as reading them index by index does |
| Challenges.AssertionFailsExactly | ctf_archive/src/challenges.rs:277-280 | the two assertions reject a row if and only if its arrays differ in length |
| Challenges.MisplacedNullsPairWrongly | ctf_archive/src/challenges.rs:279-284 | a row that passes both assertions and pairs a number with another port's protocol |
| Challenges.ChecksNeverReject | ctf_archive/migrations/2024-09-22-201237_challenges/up.sql:15-16 | the port limit and the length check never reject a row |
| Challenges.ChallengeTable.Create | ctf_archive/src/challenges.rs:166-219 | the exact request facts behind each of 403, 400, 500, 409, 404 and 201; 201 adds one row with empty port arrays, anything else adds nothing; the unique constraints stay kept |
| Challenges.ChallengeTable.ConfigureDocker | ctf_archive/src/challenges.rs:345-385 | 403 if and only if permission is missing; on an existing row 500 exactly for a text the column refuses, 409 exactly for an image of another row, else success, also with the row's own image; success writes a packing of the ports to that row alone; never 400 or 404 |
| Delivery.StartNeverPanics | ctf_archive/src/challenges.rs:275-301 | on every table those operations produce the assertions hold, a challenge is sent if and only if it is configured, and what is sent names its image, the mode with its code, and the exposed ports |
| Delivery.UnpackPacked | ctf_archive/src/challenges.rs:279-284 | the mappings sent list exactly the exposed ports, same number on both sides |
| Delivery.EndToEnd | ctf_archive/src/challenges.rs:509-520 | the daemon accepts the request, consumes nothing behind it, understands its image and mode and binds exactly the exposed ports, by their decimal names, on whatever host address it is given, if and only if fewer than ten are exposed |
| Delivery.TooManyPorts | challd/src/ports.rs:34-36 | with ten or more it answers INVALID_PORT or, where the count byte wraps, binds fewer ports |
| Delivery.Handle | challd/src/main.rs:112-153 | the handler refuses with code 1 or 2 by the verdict, answers code 3 exactly for a guest with every flag set, or starts the request's image in its mode on the least free address for a guest and on none for a demo |
| Delivery.ConfigureAndStart | ctf_archive/src/challenges.rs:275-286 | the methods of both programs composed: success exactly when the column takes the image and no other row has it, and then BUSY or that image started for that mode with exactly the exposed ports on the address the mode calls for; INVALID_PORT or fewer ports for ten and more |
| Delivery.SessionExposes | challd/src/main.rs:143-155 | in every reachable state a session started for a configured row asks for that row's image and mode, has an address of 1..n if and only if it is a guest's, and its bindings expose exactly the configured ports there if and only if they are fewer than ten |
| Delivery.EndpointsDisjoint | challd/src/ports.rs:65-71 | in every reachable state no two connections that own addresses bind the same host endpoint |
| Delivery.OverlapOnlyWithDemos | challd/src/ports.rs:65-71 | in every reachable state the bindings of two live sessions claim a common host address if and only if one of the two is a demo, which binds 0.0.0.0 |
| Reply.SerializeInjective | challd/src/wg_config.rs:7-17 | configurations with single-line fields print differently |
| Reply.ReadableExactlyWhenClear | challd/src/wg_config.rs:7-17 | a configuration prints like no other if and only if none of its fields contains the tag printed in front of it or behind it |
| Reply.NewlinesCollide | challd/src/wg_config.rs:7-17 | a private key with a line break and its own tag in it prints like another configuration |
| Reply.SerializedLines | challd/src/wg_config.rs:7-17 | the eight lines of the printed configuration |
| Reply.ConfigIsSmall | challd/src/interface.rs:115-128 | every configuration the daemon builds is at most 210 bytes, so its length never truncates |
| Reply.ReadReply | ctf_archive/src/challd.rs:75-89 | the client's reads give the parsed reply and its remainder |
| Reply.ReplyRecovered | challd/src/main.rs:203-214 | for every mode and outcome the client recovers what was meant and reads every byte, if and only if the configuration fits its length field |
| Reply.ReplyLayout | challd/src/main.rs:203-214 | the bytes of each reply as numbers: the code, or 0, the length low byte first, and the text |
| Reply.GuestGetsConfig | challd/src/main.rs:203-214 | a started guest gets its configuration in full; replies are equal only for equal address and key |
| Reply.GuestReads | challd/src/interface.rs:115-128 | the eight lines the client of a started guest holds: its own address and private key, the server's public key, the endpoint of the build, the challenge network |
| GuestCodeTheorems.AlwaysWithinIntent | ctf_archive/src/codes.rs:20-60 | under every interleaving the set is within the intended map, and each code in it still has its latest insertion's timer pending |
| GuestCodeTheorems.ExactlyWhenNotPremature | ctf_archive/src/guest.rs:48-50 | the set equals the intended map throughout a run if and only if no older timer fires on a code that is valid again |
| GuestCodeTheorems.FreshMeansExact | ctf_archive/src/guest.rs:39-50 | it does so where no code is generated again while an older timer for it is pending |
| GuestCodeTheorems.CollisionCutsShort | ctf_archive/src/guest.rs:48-50 | a run in which a code generated again is removed early |
| GuestCodeTheorems.SingleUse | ctf_archive/src/guest.rs:84-95 | between two granted redemptions of a code it was generated again |
| GuestCodeTheorems.WipeRevokes | ctf_archive/src/guest.rs:67-71 | after a wipe only codes generated since can be redeemed |
| GuestCodeTheorems.ValidExactlyWhen | ctf_archive/src/codes.rs:20-60 | along any run a code is valid if and only if it was inserted and since then neither redeemed, wiped nor removed by one of its timers |
| GuestCodeTheorems.NoMoreThanInserted | ctf_archive/src/guest.rs:84-95 | granted redemptions, plus the one still possible, never exceed insertions |
| GuestCodeService.InMemorySet.InsertTemp | ctf_archive/src/codes.rs:20-45 | inserts the code and starts its timer |
| GuestCodeService.InMemorySet.Remove | ctf_archive/src/codes.rs:47-55 | true if and only if the value was in the set, and removes it |
| GuestCodeService.InMemorySet.Clear | ctf_archive/src/codes.rs:57-60 | empties the set and leaves the timers |
| GuestCodeService.InMemorySet.TimerFires | ctf_archive/src/codes.rs:34-43 | removes the timer's code, whichever insertion it came from |
| GuestCodeService.GuestApi.GenerateCode | ctf_archive/src/guest.rs:32-53 | permission and randomness decide the answer; only success changes the set |
| GuestCodeService.GuestApi.RedeemCode | ctf_archive/src/guest.rs:84-95 | grants a token for that code if and only if it was in the set, and uses it up |

## Left out

- Docker, iptables, ip and WireGuard themselves: each call is a step that succeeds or fails and edits abstract sets of installed resources.
- The bridge address in a DNAT rule: rules are identified by the guest's source address, and nothing is claimed about which container holds the bridge address later.
- Weak-memory effects of relaxed atomics: steps interleave sequentially consistently.
- Wall-clock durations: timers may fire at any time; the 4 hour, 6 hour and 30 minute values are not modelled.
- Partial reads of a request: a connection's bytes are read and judged in one step of the transition system.
- Loss of a reply when the daemon closes a socket with unread bytes.
- Anything after `tracker.wait` returns: the run ends there, with late handlers as they are.
- The end of the process in the middle of a task's code: an execution it cuts off is the beginning of one it does not; the transition system itself does end runs there.
- The columns of `create` other than name and category: whether their texts fit enters as one flag; database connections never fail.
- The permission check of `host_demo` and the texts of error responses.
- Key generation, ECDSA, base64 and JWT: keys and tokens are inputs.
- Mutex poisoning, logging, routing, CORS, the remaining handlers, date and category conversion: thin wrappers without further state.
