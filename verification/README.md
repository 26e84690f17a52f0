# OWLS, modelled and proved in Dafny

OWLS floods a gateway with thousands of simulated access points. This project models its core and
proves properties of the model with Dafny 4.11. `dafny verify dfyconfig.toml` checks all of it.

| file | what it models |
|---|---|
| `Stats.dfy` | the live counters of `SimStats`: one status slot per node, added up on the master |
| `Tiling.dfy`, `Naming.dfy`, `Configuration.dfy` | how a simulation is split over nodes, and how devices and their BSSIDs are named |
| `Devices.dfy`, `DeviceRuns.dfy` | the life cycle of one node's clients, body by body, and what holds over whole runs |
| `StepLaws.dfy` | what every outcome of every step of a node does, said outright |
| `CounterRuns.dfy`, `StrayRuns.dfy` | exactly when the live counter of a node is right, and runs in which it is not |
| `StrandedRuns.dfy` | runs in which an exception strands a client, and which stranded clients can come back |
| `Cluster.dfy`, `Reports.dfy` | a master and its secondaries running, reporting and adding up; what the master's slots show |
| `Simulations.dfy` | the stored definitions, their validation and the merge of a PUT |
| `Coordinator.dfy`, `CoordinatorRuns.dfy` | starting, stopping, cancelling and expiring runs, and their conservation |
| `RateLimiter.dfy`, `Registry.dfy` | the fixed-window rate limiter; the service registry fed by bus messages |
| `Decimal.dfy`, `Where.dfy`, `Placeholders.dfy`, `Paging.dfy` | the SQL text layer: WHERE clauses, placeholders, ranges and iteration |
| `Cidr.dfy`, `Fifo.dfy` | prefix matching; the ring buffer |

Where the source changes objects, the model has a class with the same fields, and each method is
proved against a function of the old state. The theorems over runs are about these functions.

## How the life cycle is modelled

Every body that runs under a client's mutex is one atomic step. The scheduler is the multiset of
events it still has to run; delays are left out, so an event may fire at any time after it was posted.
I/O enters as the outcome handed to a step: a handshake that fails or opens a descriptor, a message
sent or not, a frame read or broken. Two bodies can end by an exception with nothing posted, and do so
in the model: an EstablishConnection before its try block (src/OWLS_EstablishConnection.cpp:21-60: a
gateway that `Poco::URI` refuses, a certificate or key that cannot be loaded), and an upgrade whose uri
`Poco::URI` refuses after the client has been disconnected (src/OWLSclient.cpp:512-514). A world adds the threads under way: callbacks between finding
their client in `Clients_fd_` and locking it, command threads waiting for the mutex, and restarting
commands asleep while they hold it (`std::this_thread::sleep_for` under the lock blocks every other
step of that client). A client is "in a hand" for each reason it will be connected again: being
connected, a pending EstablishConnection or Reconnect, a socket callback about to call Reconnect, a
restarting command asleep.

## What the code does that its documentation or a reader would not expect

- README.md of the repository promises exponential back-off. `Backoff_` starts at 0, is doubled and is
  reset to 0, so every delay is 0 (`DeviceRuns.BackoffStaysZero`).
- A client can be stranded, connected by nobody for the rest of the simulation. An upgrade with a uri
  that `Poco::URI` refuses does it to a connected client (`StrandedRuns.UpgradeStrands`), a gateway that it
  refuses to every client at its first event (`StrandedRuns.RefusedGateway`); POST asks of the gateway only
  that it is not empty. Nobody is stranded throughout a run iff no step that ends by an exception takes its
  client's last hand (`DeviceRuns.NobodyStranded`). Call a run disciplined if callbacks and commands that
  disconnect a client find it connected: in such runs nobody is stranded iff no step ends by an exception
  (`DeviceRuns.NobodyStrandedIfDisciplined`). A stranded client can come back iff a thread under way or a
  stale descriptor still leads to it (`StrandedRuns.StrandedForGoodIff`).
- After every run a client is in one hand, plus one for each callback or command that cut it off when it
  was disconnected, less those lost to exceptions and those merged (`DeviceRuns.HandsAreConserved`).
  Exactly one hand throughout: `DeviceRuns.OneHandRun`. `StrayRuns.DisciplineIsNeeded` is a run of five
  steps that puts a client in two hands.
- The live counter is right throughout a run iff every step is fair: connections and Reconnects find
  their client disconnected, and a disconnection finds it connected or the counter at zero
  (`CounterRuns.CounterIsRightIff`). In a disciplined run that leaves one condition: whenever a
  restarting command wakes up, the counter is at zero (`CounterRuns.DisciplinedCounterIsRightIff`). After
  any run the history alone says by how much it is off (`CounterRuns.CounterBooks`).
- A reboot, upgrade or factory reset disconnects twice, so each one carried through may lower the
  counter once too often (`DeviceRuns.CounterAgainstTruth` has the range, `StrayRuns.RestartMiscounts`
  a disciplined run with one restart that reaches its lower end).
- The counter can also become too high, without any bound: a callback overtaken by a heartbeat leaves two
  connections pending, and both count (`StrayRuns.CountedManyTimes`). The master's sum then exceeds the
  devices of the simulation (`Cluster.SumCanExceed`), and timeToFullDevices can be stamped with a single
  device connected (`Cluster.StampCanBeEarly`). The counter never exceeds the connected clients iff a
  connection or a Reconnect that finds its client connected also finds the counter too low
  (`CounterRuns.CounterIsCoveredIff`, `Cluster.CountersAreCoveredIff`); then the sum is bounded
  (`Cluster.SumAgainstExpected`). Disciplined runs are of this kind (`Cluster.DisciplineIsRoomy`).
- PUT validates the request body, not the merged record it stores; `Simulations.PutKeepsValidIff` says
  when the stored record is still valid, `Simulations.PutCanStoreInvalid` gives one that is not.
- ValidateSimulation tests maxAssociations twice and maxClients not at all: maxAssociations ends at 16, not
  64, and maxClients has no upper bound (`Simulations.Bounds`).
- The padding of a split takes a remainder by zero when there are fewer devices than nodes, and a valid
  definition does not exclude it (`Tiling.ModulusIsZeroIff`, `Devices.SimulationRunner.Run`,
  `Simulations.ValidButUnsplittable`).
- A macPrefix need not be hexadecimal. Unless what `stoull` leaves of it, after blanks, a sign and 0x, is
  hex, there are no distinct BSSIDs (`Naming.BssidsDistinctIff`): either all devices share theirs
  (`Naming.OtherPrefixClashes`) or `stoull` throws for every device (`Naming.SerialThrowsIff`), and then
  run() ends by that exception without a single client (`Devices.SimulationRunner.CreateClients`).
- A secondary that does not answer ends run() by an exception, and the later secondaries are never
  started (`Devices.SimulationRunner.StartSecondaries`).
- The rate limiter's windows are aligned to the first request of each, so an interval of one period can
  let through 2 * MaxCalls - 1 requests, and no more (`RateLimiter.AnyIntervalIsBounded`,
  `RateLimiter.BoundIsReached`).
- A failing query ends `Iterate` early, and `Iterate` still answers true (`Paging.FailureCutsShort`).
- `FIFO::Write` always answers false and never refuses; the item that takes the last place makes the
  buffer look empty (`Fifo.FullLooksEmpty`).
- `cidr_match` is called with the range in the place of the address; the result is the same
  (`Cidr.MatchEitherWay`).

## Model

| member | source | states |
|---|---|---|
| Stats.SimStats.UpdateConnections | src/SimStats.h:30-47 | only the master sums its slots, and it stamps timeToFullDevices only from zero and only when the sum equals expectedDevices |
| Stats.SimStats.Connect | src/SimStats.h:19-28 | an unknown run is ignored; otherwise slot 0 counts one more and the stamp is considered afterwards |
| Stats.SimStats.Disconnect | src/SimStats.h:49-59 | slot 0 counts one less, never below zero, and nothing else changes |
| Stats.SimStats.StartSim | src/SimStats.h:139-162 | appends one fresh slot on a secondary, services + 1 of them on the master |
| Stats.SimStats.EndSim | src/SimStats.h:164-172 | only slot 0 is marked completed and timed |
| Stats.SimStats.SetState | src/SimStats.h:179-186 | only the state of slot 0 changes |
| Stats.SimStats.RemoveSim | src/SimStats.h:174-177 | exactly this run is forgotten |
| Stats.SimStats.UpdateRemoteStatus | src/SimStats.h:233-246 | a report replaces the slot of its index if there is one, in the run named inside the report; the stamp is considered afterwards |
| Stats.SimStats.GetCurrent | src/SimStats.h:93-129 | a permitted reader sees slot 0 with the live devices of all slots (its own on a secondary), anyone else's result is left alone |
| Stats.StartedSlots | src/SimStats.h:139-162 | every slot appended belongs to a running simulation of this id and owner with nothing live, nothing stamped and these devices expected |
| Stats.CountingIsLocal | src/SimStats.h:19-59 | connections and losses change only the counter of slot 0, by one, and the former perhaps the stamp of a master |
| Stats.ReportArrives | src/SimStats.h:233-246 | after a report its slot holds all of it, every other slot all it held but for the stamp of slot 0, and the sum has moved by the difference |
| Tiling.ModulusIsZeroIff | src/SimulationRunner.cpp:140-142 | the modulus of the padding is zero exactly when there are fewer devices than nodes |
| Tiling.PadIsRemainder | src/SimulationRunner.cpp:140-142 | the padding is devices mod (services + 1), and master share and slices add up to all devices |
| Tiling.MinNeverTrims | src/SimulationRunner.cpp:161-167 | every slice ends within the devices, so the min never trims and the subtraction never wraps |
| Tiling.ExactTiling | src/SimulationRunner.cpp:140-167 | each device lies in the master's range or in exactly one slice, and nothing outside does |
| Tiling.SlicesAreAccepted | src/RESTAPI/RESTAPI_operation_handler.cpp:39-45 | every slice sent passes the receiver's guard against zero offset, limit and index, and its index is a distinct slot of the master |
| Naming.SerialReadsBack | src/SimulationRunner.cpp:150-157 | serial numbers have 12 characters and their hex part reads back as the device number |
| Naming.SerialsDistinct | src/SimulationRunner.cpp:179-185 | no two devices share a serial number |
| Naming.SerialsCount | src/SimulationRunner.cpp:179-187 | a range of devices has as many serial numbers as devices |
| Naming.SerialAsNumber | src/framework/utils.cpp:336-338 | a serial whose prefix is hex after blanks, sign and 0x reads as prefix * 16^6 + device * 16, or as 2^64 less that |
| Naming.StoullReads | src/framework/utils.cpp:336-338 | blanks, one sign, 0x before a hex digit, and the hex digits up to the first other character are read, as a negative modulo 2^64 after a minus sign |
| Naming.BssidReadsBack | src/framework/utils.cpp:340-352 | a BSSID is six pairs of lower-case hex digits with colons between them that read back as serial + index modulo 2^48 |
| Naming.BssidInjective | src/framework/utils.cpp:340-352 | equal BSSIDs come from equal low 48 bits of serial + index |
| Naming.BssidsDistinctIff | src/OWLSclient.cpp:165-171 | for every macPrefix of six characters: the BSSIDs of two or more devices, 15 each, all exist and differ iff what stoull leaves of the prefix is hexadecimal |
| Naming.OtherPrefixClashes | src/framework/utils.cpp:336-338 | with any other prefix all devices read as the same number, if as any |
| Naming.SerialThrowsIff | src/framework/utils.cpp:336-338 | stoull throws for a serial iff what it leaves of the prefix begins with a character that is no hex digit |
| Configuration.AssociationTable.UpdateConfiguration | src/OWLSclient.cpp:148-199 | the nested loops give the k-th (ssid, band) pair under a recognised role the BSSID serial + k, also counting pairs of unknown bands |
| Configuration.AssociationTable.NumberSsids | src/OWLSclient.cpp:161-194 | the middle loop numbers all pairs of one interface after those before it |
| Configuration.AssociationTable.NumberBands | src/OWLSclient.cpp:165-193 | the innermost loop numbers the pairs of one SSID after those before it |
| Configuration.NumberedAt | src/OWLSclient.cpp:167-192 | every entry carries the number of a pair that names its role, SSID and band |
| Configuration.EntriesAreConfigured | src/OWLSclient.cpp:154-193 | there is an entry for a role, SSID and band iff the configuration has that band of that SSID under that role |
| Configuration.EveryBandCounts | src/OWLSclient.cpp:154-199 | every interface of a recognised role uses up one number for each band of its SSIDs, known or not |
| Configuration.LastPairNumbers | src/OWLSclient.cpp:167-192 | of several pairs for one entry the last one gives it its number |
| Configuration.NoBssidTwice | src/OWLSclient.cpp:154-199 | over all devices of a simulation whose macPrefix is hex for stoull, with at most 15 pairs each, no BSSID is used twice |
| Devices.OWLSclient.constructor | src/OWLSclient.h:124-144 | a client starts disconnected, without descriptor and with back-off 0 |
| Devices.OWLSclient.Backoff | src/OWLSclient.h:95-102 | the delay is doubled, or 15 once past 300 |
| Devices.SimulationRunner.AddClientFd | src/SimulationRunner.h:49-52 | maps the descriptor to the client, changing nothing else |
| Devices.SimulationRunner.RemoveClientFd | src/SimulationRunner.h:54-57 | forgets exactly this descriptor |
| Devices.SimulationRunner.DisconnectClient | src/OWLSclient.cpp:420-443 | forgets the descriptor, lowers the counter of a valid client even if it is not connected, ends the connection, posts nothing |
| Devices.SimulationRunner.Disconnect | src/OWLS_Disconnect.cpp:16-41 | on a running node a valid client is disconnected and one EstablishConnection is posted; else nothing happens |
| Devices.SimulationRunner.PostConnection | src/OWLS_Disconnect.cpp:30-31 | one step of back-off and one EstablishConnection posted, nothing else |
| Devices.SimulationRunner.ReconnectEvent | src/OWLS_Reconnect.cpp:15-32 | clears Connected_ and posts one EstablishConnection, leaving descriptor, index and counter alone |
| Devices.SimulationRunner.EstablishConnection | src/OWLS_EstablishConnection.cpp:16-104 | an exception before the try block drops the event and changes nothing; success connects, indexes the descriptor, raises the counter and posts the heartbeats; any other failure posts one Reconnect and changes nothing else but the back-off |
| Devices.SimulationRunner.Attach | src/OWLS_EstablishConnection.cpp:79-91 | sets descriptor and Connected_ and indexes the client under the new descriptor |
| Devices.SimulationRunner.Connect | src/OWLS_EstablishConnection.cpp:128-144 | posts one State, HealthCheck, Log and WSPing, resets the back-off and raises the counter |
| Devices.SimulationRunner.StateEvent | src/OWLS_State.cpp:16-58 | a connected client's State reposts itself if sent and disconnects otherwise |
| Devices.SimulationRunner.HealthCheckEvent | src/OWLS_HealthCheck.cpp:13-44 | a connected client's HealthCheck reposts itself if sent and disconnects otherwise |
| Devices.SimulationRunner.WSPingEvent | src/OWLS_WSPing.cpp:13-33 | a connected client's WSPing reposts itself if sent and disconnects otherwise |
| Devices.SimulationRunner.LogEvent | src/OWLS_Log.cpp:13-39 | a Log is never reposted; failing to send it disconnects |
| Devices.SimulationRunner.Acknowledge | src/OWLSclient.cpp:370-418 | configuring (and blinking) disconnects only if the answer cannot be sent |
| Devices.SimulationRunner.Restart | src/OWLSclient.cpp:445-564 | a reboot, and likewise an upgrade or a factory reset, drops out if its answer was not sent; if it was, it disconnects without posting and goes to sleep, unless it is an upgrade whose uri is refused |
| Devices.SimulationRunner.FindClient | src/SimulationRunner.cpp:302-315 | a callback finds a client iff its descriptor is indexed, and then the indexed one |
| Devices.SimulationRunner.OnSocketReadable | src/SimulationRunner.cpp:317-369 | a broken frame or an unsendable refusal drops the client out; a command only spawns its thread |
| Devices.SimulationRunner.CreateClients | src/SimulationRunner.cpp:179-187 | the loop leaves exactly the clients of its range, all idle, each with exactly one pending EstablishConnection; it ends by an exception with none of them iff the range is not empty and stoull refuses the macPrefix |
| Devices.SimulationRunner.ReadableSerials | src/framework/utils.cpp:336-338 | the prefixes that let the clients be created are those whose serial numbers stoull reads |
| Devices.SimulationRunner.StartSecondaries | src/SimulationRunner.cpp:159-167 | the loop hands out exactly the slices of the tiling, up to and including the first whose secondary does not answer |
| Devices.SimulationRunner.Run | src/SimulationRunner.cpp:139-188 | exactly when it ends by a division by zero or by a serial number that stoull refuses, with nothing created; otherwise this node creates the clients of its own range and starts the secondaries with their slices of the tiling |
| Devices.SimulationRunner.Stop | src/SimulationRunner.cpp:239-250 | the node stops running and its connection state stays as it is |
| Devices.SimulationRunner.DidEnact | src/SimulationRunner.h:66-99 | field changes that match an effect change the abstract node exactly as the life-cycle model does |
| DeviceRuns.RunLeadsToStart | src/SimulationRunner.cpp:179-187 | what run() leaves behind is a state from which the theorems about runs start |
| DeviceRuns.ShareAfter | src/SimulationRunner.cpp:252-300 | a step changes the counts that concern its own client as its effect says, and nobody else's |
| StepLaws.ConnectionLost | src/OWLS_EstablishConnection.cpp:16-60 | a connection that throws changes nothing but that its event is gone |
| StepLaws.ConnectionFailed | src/OWLS_EstablishConnection.cpp:94-104 | a failed connection posts one Reconnect, takes a step of back-off, and changes nothing else |
| StepLaws.ConnectionOpened | src/OWLS_EstablishConnection.cpp:66-144 | a connection connects under its descriptor, indexes it, clears the back-off, posts State, HealthCheck, Log and WSPing once each and counts one more |
| StepLaws.ReconnectFires | src/OWLS_Reconnect.cpp:15-32 | Reconnect clears Connected_ and posts one EstablishConnection, leaving descriptor, index and counter |
| StepLaws.BeatOfDisconnected | src/OWLS_State.cpp:16-58 | a heartbeat or log of a disconnected client does nothing |
| StepLaws.BeatSent | src/OWLS_Log.cpp:13-39 | a State, HealthCheck or WSPing that is sent is pending again, a Log that is sent is not, and nothing else changes |
| StepLaws.BeatUnsent | src/OWLS_HealthCheck.cpp:13-44 | any of them that cannot be sent disconnects its client, counts it off and posts one EstablishConnection |
| StepLaws.EventOnStopped | src/SimulationRunner.cpp:239-250 | on a stopped node an event does nothing |
| StepLaws.PossibleSteps | src/SimulationRunner.cpp:252-369 | a callback, call or command that waits can go on iff no restarting command sleeps under its client's mutex |
| StepLaws.PossibleEvents | src/OWLS_EstablishConnection.cpp:16-66 | so can a pending event, and a connection that throws even then |
| StepLaws.CallbackDrops | src/SimulationRunner.cpp:252-279 | a socket error or shutdown disconnects its client, counts it off, posts nothing and goes on to Reconnect |
| StepLaws.CallbackReconnects | src/SimulationRunner.cpp:281-300 | the Reconnect that follows clears Connected_ and posts one EstablishConnection on a running node |
| StepLaws.FrameBreaks | src/SimulationRunner.cpp:317-369 | a broken frame or an unsendable refusal disconnects the client, counts it off and posts one EstablishConnection, on a running node |
| StepLaws.FrameIsRead | src/SimulationRunner.cpp:317-400 | any other frame changes nothing on the node; a command gets its thread |
| StepLaws.RestartSleeps | src/OWLSclient.cpp:445-564 | an answered reboot, upgrade with a good uri, or factory reset disconnects its client, counts it off and leaves one sleeper |
| StepLaws.UpgradeAborts | src/OWLSclient.cpp:510-525 | an answered upgrade with a refused uri disconnects its client, counts it off and leaves no sleeper |
| StepLaws.CommandOnlyAnswers | src/OWLSclient.cpp:370-418 | configuring, blinking and ignored commands change nothing on the node |
| StepLaws.CommandUnsent | src/OWLSclient.cpp:399-401 | any command whose answer cannot be sent disconnects its client, counts it off and posts one EstablishConnection, on a running node |
| StepLaws.RestartWakes | src/OWLSclient.cpp:466-467 | the end of a sleep disconnects and counts off once more and posts one EstablishConnection, on a running node |
| StepLaws.BackoffCycle | src/OWLSclient.h:95-102 | from 15 on the delays would go round through 30, 60, 120, 240 and 480 |
| DeviceRuns.HeartbeatsStay | src/OWLS_State.cpp:16-58 | in every run, while the simulation runs, a connected client has each heartbeat pending, none more often than it had connections |
| DeviceRuns.HandsAreConserved | src/SimulationRunner.cpp:252-300 | after every run the hands of a client, those lost to exceptions and those merged are as many as one and those added by callbacks and commands that found it disconnected |
| DeviceRuns.NobodyStranded | src/OWLS_EstablishConnection.cpp:16-104 | in every run, each client is in at least one hand as long as the simulation runs iff no step that ends by an exception takes its client's last hand |
| DeviceRuns.NobodyStrandedIfDisciplined | src/OWLSclient.cpp:492-526 | in disciplined runs that, and one hand for everybody, holds iff no step ends by an exception |
| DeviceRuns.BackoffStaysZero | src/OWLSclient.h:95-102 | in every run the back-off of every client is zero |
| DeviceRuns.OneHandStep | src/OWLSclient.cpp:420-443 | a step keeps every client in exactly one hand iff it neither has a disconnected client reconnected once more nor loses a hand to an exception (a pending connection, or the connection of the upgraded client) |
| DeviceRuns.OneHandRun | src/SimulationRunner.cpp:252-300 | every client is in exactly one hand throughout a run iff this holds of every step |
| DeviceRuns.CounterAgainstTruth | src/OWLSclient.cpp:460-467 | after any disciplined run, connected clients less restarts carried through <= liveDevices <= connected clients, with equality without restarts |
| DeviceRuns.FdIndexIsExact | src/SimulationRunner.h:49-57 | after any disciplined run with fresh descriptors, Clients_fd_ is exactly the map from descriptors to connected clients and all others have none |
| CounterRuns.CounterStep | src/SimStats.h:19-59 | what any step does to the counter and to the number of connected clients, including the saturation at zero |
| CounterRuns.CounterIsRightIff | src/SimStats.h:19-59 | in every run liveDevices equals the connected clients throughout iff connections and Reconnects find their client disconnected and disconnections find it connected or the counter at zero |
| CounterRuns.DisciplinedCounterIsRightIff | src/OWLSclient.cpp:460-467 | in disciplined runs it does so iff every restarting command wakes up to a counter of zero |
| CounterRuns.CounterIsCoveredIff | src/SimStats.h:19-59 | in every run liveDevices never exceeds the connected clients iff a connection or Reconnect that finds its client connected finds the counter too low |
| CounterRuns.CounterBooks | src/SimStats.h:19-59 | after every run the counter exceeds the connected clients by the steps of its history that found a client connected when they should not, less those that found it disconnected; it is right iff these are as many and never too high iff no more |
| StrayRuns.StrayDrop | src/SimulationRunner.cpp:252-279 | a callback that lands on a client no longer connected leaves it in two hands and the counter too low |
| StrayRuns.UndisciplinedRun | src/SimulationRunner.cpp:281-300 | from every state with the counter right and two clients connected, a socket error overtaken by a failed heartbeat does that |
| StrayRuns.DisciplineIsNeeded | src/SimulationRunner.cpp:252-300 | every fresh node with two clients has a five-step run that puts a client in two hands and leaves the counter too low |
| StrayRuns.RestartMiscounts | src/OWLSclient.cpp:460-467 | every fresh node with two clients has, for each of reboot, upgrade with a good uri and factory reset, a disciplined run in which one of them leaves the counter one below the connected clients |
| StrayRuns.CountedManyTimes | src/SimStats.h:19-28 | on every fresh node each client has, for every n, a run after which it counts for n while nothing else is connected |
| StrandedRuns.LostStrands | src/OWLS_EstablishConnection.cpp:21-21 | a client whose first EstablishConnection throws is in no hand from then on |
| StrandedRuns.RefusedGateway | src/OWLS_EstablishConnection.cpp:21-21 | if every EstablishConnection throws, no run connects or counts anybody, and a client is in no hand exactly after its one event has fired |
| StrandedRuns.UpgradeStrands | src/OWLSclient.cpp:510-525 | every client of a fresh node has a disciplined run of four steps, ending with an upgrade whose uri is refused, after which nothing leads to it any more |
| StrandedRuns.StrandedForGood | src/SimulationRunner.cpp:252-315 | a client that no hand, no thread and no descriptor leads to is never connected again in any continuation |
| StrandedRuns.StrandedForGoodIff | src/SimulationRunner.cpp:252-369 | a client in no hand of a running node has a run that connects it iff a thread under way or a stale descriptor leads to it |
| Cluster.SumAgainstExpected | src/SimStats.h:30-47 | in every run in which no connection or Reconnect finds its client connected and the counter of its node not too low, the slot sum never exceeds the devices, and equals them iff every slot shows its whole slice live |
| Cluster.CountersAreCoveredIff | src/SimStats.h:19-59 | that condition on the moves is exact: it holds iff no node ever counts more than it has connected |
| Cluster.DisciplineIsRoomy | src/SimulationRunner.cpp:252-300 | disciplined runs meet it, whether or not nodes are stopped |
| Cluster.SumCanExceed | src/SimStats.h:30-47 | without it the slot sum of any simulation can exceed its devices by any amount |
| Cluster.StampCanBeEarly | src/SimStats.h:41-45 | and timeToFullDevices can be stamped with a single device connected |
| Cluster.StampMove | src/SimStats.h:41-45 | in any move whatsoever timeToFullDevices changes only from zero, and then the slot sum equals expectedDevices |
| Cluster.StampIsPrompt | src/SimStats.h:30-47 | it is stamped by the very connection of the master or report that makes the sum equal, with the time since the start |
| Cluster.StampStays | src/SimStats.h:41-45 | once set, timeToFullDevices never changes in any continuation whatsoever |
| Cluster.TimeToFullDevices | src/RESTAPI/RESTAPI_status_handler.cpp:43-53 | both, in every run from the start of a simulation, with reports delivered late, out of order or never |
| Cluster.SerialsOverAllNodes | src/SimulationRunner.cpp:150-187 | every device has a client on one node, and no serial number is on two |
| Reports.DeliverArrives | src/SimStats.h:233-246 | a delivered report is in its slot as a whole, no other live counter changes, and the sum has moved by the difference |
| Reports.SlotShowsLastReport | src/SimStats.h:233-246 | after any run slot i of the master is the report last delivered for i |
| Reports.SlotWasTrue | src/SimulationRunner.cpp:53-88 | what slot i shows is what node i had in its own slot when it sent some report, or what was there from the start |
| Reports.StartSimLeadsToStart | src/SimStats.h:139-162 | nodes as run() leaves them, with the master's slots as StartSim makes them, are where runs of a cluster start |
| Reports.EverybodyLive | src/SimStats.h:30-47 | every simulation has a run in which every client of every node connects and every report is delivered, and the sum is then its devices |
| Simulations.SimulationHandler.DoPost | src/RESTAPI/RESTAPI_simulation_handler.cpp:70-92 | stores the body over the defaults iff that is valid |
| Simulations.SimulationHandler.DoPut | src/RESTAPI/RESTAPI_simulation_handler.cpp:105-152 | stores the body merged into the record iff the record exists and the body on its own is valid |
| Simulations.StoredAreNameable | src/RESTAPI/RESTAPI_simulation_handler.cpp:46-68 | after any requests every stored definition has 1 to 1000000 devices and a six-character macPrefix |
| Simulations.PutIsFieldwise | src/RESTAPI/RESTAPI_simulation_handler.cpp:123-138 | an accepted PUT changes exactly the fields its body names, each to what the body says, of that definition only |
| Simulations.PostDefaults | src/RESTAPI/RESTAPI_simulation_handler.cpp:70-92 | a POST with only its four texts is stored with these default numbers iff the texts are acceptable |
| Simulations.Bounds | src/RESTAPI/RESTAPI_simulation_handler.cpp:46-68 | for every number of a definition, the exact values that are accepted |
| Simulations.TextBounds | src/RESTAPI/RESTAPI_simulation_handler.cpp:46-68 | and for every text |
| Simulations.DeleteForgets | src/RESTAPI/RESTAPI_simulation_handler.cpp:94-103 | a DELETE forgets its definition and no other |
| Simulations.PutKeepsValidIff | src/RESTAPI/RESTAPI_simulation_handler.cpp:123-142 | a PUT of a valid body into a valid record stores a valid record iff the two merged min/max pairs are in order |
| Simulations.PutCanStoreInvalid | src/RESTAPI/RESTAPI_simulation_handler.cpp:123-142 | a valid record and a valid body whose merge, which is stored, is not valid |
| Simulations.ValidButUnsplittable | src/RESTAPI/RESTAPI_simulation_handler.cpp:53-53 | a valid definition divides by zero exactly for as many services as devices or more |
| Coordinator.SimulationCoordinator.StartSim | src/SimulationCoordinator.cpp:146-188 | fails iff the definition is unknown; otherwise adds the run to both maps |
| Coordinator.SimulationCoordinator.Finish | src/SimulationCoordinator.cpp:202-210 | takes the run out of both maps; the master first stores its final status |
| Coordinator.SimulationCoordinator.StopSim | src/SimulationCoordinator.cpp:190-216 | the three outcomes, and that only a permitted stop of a known run changes anything |
| Coordinator.SimulationCoordinator.CancelSim | src/SimulationCoordinator.cpp:218-240 | the same for a cancellation, which stores no result |
| Coordinator.SimulationCoordinator.ExpireRuns | src/SimulationCoordinator.cpp:74-106 | the erasing loop equals a sweep over the runs in map order |
| CoordinatorRuns.FinishRun | src/SimulationCoordinator.cpp:85-93 | finishing leaves on the master one result: slot 0 completed, with the live devices of all slots |
| CoordinatorRuns.OnlyPermittedEnd | src/SimulationCoordinator.cpp:190-240 | only root and the starter of a run end it; else nothing changes; a stop and a cancellation forget exactly the run, and only the latter resumes the search for services |
| CoordinatorRuns.SweepIsExact | src/SimulationCoordinator.cpp:77-102 | whatever the order of the map, a sweep ends exactly the expired runs, each with its one result, and leaves the others alone |
| CoordinatorRuns.SweepKeepsIff | src/SimulationCoordinator.cpp:77-102 | a run survives a sweep iff its length is 0 or it has not been running for longer, where a clock that has gone back behind its start counts as 2^64 seconds more |
| CoordinatorRuns.CountersMayMove | src/SimStats.h:19-59 | connections, losses and accepted reports change a run only as the conservation law allows |
| CoordinatorRuns.RunsAreConserved | src/SimulationCoordinator.cpp:146-240 | after any operations both maps have the same keys and every run is running, completed or cancelled; completed ones have exactly one result on the master, all others none |
| CoordinatorRuns.RunLivesUntil | src/SimulationCoordinator.cpp:77-102 | over any operations, a run that nobody permitted ends is there iff its length is 0 or no sweep came more than that after its start, and completed otherwise |
| CoordinatorRuns.StartAdds | src/SimulationCoordinator.cpp:146-188 | starting adds exactly this run with its starter, ends the search for services and leaves no result |
| RateLimiter.RESTAPI_RateLimiter.IsRateLimited | src/framework/RESTAPI_RateLimiter.h:32-58 | the verdict and the new window of the key, leaving all other keys alone |
| RateLimiter.AnyIntervalIsBounded | src/framework/RESTAPI_RateLimiter.h:40-57 | in any run any interval of one period lets through at most 2 * MaxCalls - 1 requests of a key |
| RateLimiter.BoundIsReached | src/framework/RESTAPI_RateLimiter.h:40-57 | a run that reaches this, for every key, limit and period of two milliseconds or more |
| RateLimiter.RefusedOnlyWhenFull | src/framework/RESTAPI_RateLimiter.h:44-51 | a refusal means that MaxCalls requests of the key were let through less than a period before |
| RateLimiter.OtherKeysDoNotMatter | src/framework/RESTAPI_RateLimiter.h:35-36 | the verdict on a key follows from that key's own requests |
| Registry.MicroService.BusMessageReceived | src/framework/MicroService.cpp:40-148 | which messages change the registry and how, and that every readable message sweeps |
| Registry.MicroService.Sweep | src/framework/MicroService.cpp:136-143 | erasing while iterating removes exactly the entries older than 60 seconds |
| Registry.RegistryIsHistory | src/framework/MicroService.cpp:47-143 | an endpoint is registered iff its latest complete foreign event is no leave and at most 60 seconds older than the last message handled, and it is stamped with that event |
| Registry.LeaveRemoves | src/framework/MicroService.cpp:61-69 | after any history a complete leave of another process takes its endpoint out |
| Registry.JoinRegisters | src/framework/MicroService.cpp:70-95 | after any history a complete join of another process, handled within a minute, puts in its endpoint with all it says |
| Registry.KeepAliveRenews | src/framework/MicroService.cpp:58-60 | a keep-alive renews the stamp of an entry that is there and otherwise works as a join |
| Registry.OthersOnlySweep | src/framework/MicroService.cpp:46-143 | any other readable message leaves an entry as it was, or takes it out if it is more than a minute old or the clock has gone back behind its stamp |
| Registry.UnreadableChangesNothing | src/framework/MicroService.cpp:145-147 | a message that cannot be parsed does not even sweep |
| Registry.MetadataIsLastInsertion | src/framework/MicroService.cpp:58-95 | its metadata is that of the last event that inserted it; everything since was a keep-alive |
| Where.Escape | src/framework/orm.h:106-116 | the loop doubles exactly the quotes |
| Where.EscapedReadsBack | src/framework/orm.h:106-116 | an escaped text between quotes reads back as that text by section 5.3 of SQL-92, whatever it contains |
| Where.WhereAndIsJoined | src/framework/orm.h:118-163 | the recursive template produces the clauses of the non-empty values with " and " between them |
| Where.WhereAndReadsBack | src/framework/orm.h:118-168 | a reader run on the clause recovers exactly the given fields and their literals in order, without the empty texts, for texts, booleans, integers and floating-point numbers |
| Where.ValueReadsBack | src/framework/orm.h:118-168 | every text, boolean, integer and floating-point number is determined by what is written for it |
| Where.ValueTexts | src/framework/orm.h:118-168 | the texts of booleans and of floating-point numbers, with six decimals |
| Where.ItemsReadBack | src/framework/orm.h:118-168 | the clause reads back as the fields and values it was built from, in order, without the empty texts |
| Placeholders.DB.FieldLists | src/framework/orm.h:217-240 | the constructor's loop builds the three lists, in field order, with commas between and one opening parenthesis if there are fields |
| Placeholders.DB.constructor | src/framework/orm.h:210-240 | the object holds these lists and knows exactly the lower-case names |
| Placeholders.KnownFields | src/framework/orm.h:217-240 | a field is known by its name in lower case |
| Placeholders.DB.ConvertParams | src/framework/orm.h:396-413 | the loop numbers the marks from 1 for PostgreSQL and copies the text for the others |
| Placeholders.DB.CreateRecord | src/framework/orm.h:427-429 | the insert statement given to the driver |
| Placeholders.DB.UpdateRecord | src/framework/orm.h:589-592 | the update statement given to the driver |
| Placeholders.InsertIsNumbered | src/framework/orm.h:427-429 | for every list of n names without '?', the PostgreSQL insert text has exactly $1 to $n in field order |
| Placeholders.InsertStatement | src/framework/orm.h:427-429 | the whole insert statement, with $1 to $n for PostgreSQL and marks for the others |
| Placeholders.UpdateIsNumbered | src/framework/orm.h:589-592 | the update text has $i for field i and $(n+1) for the value of its condition |
| Placeholders.UpdateStatement | src/framework/orm.h:589-592 | the whole update statement, likewise |
| Placeholders.RestoreUndoesNumbering | src/framework/orm.h:396-413 | turning numbers back into marks undoes the numbering iff the text has no '$' and no digit right after a '?' |
| Placeholders.ParametersInOrder | src/framework/orm.h:402-406 | the parameters of such a text read as 1, 2, 3 and so on, one to a mark |
| Paging.RangesAgree | src/framework/orm.h:990-1006 | the range texts of all three databases read back as the same window |
| Paging.RangeTexts | src/framework/orm.h:990-1006 | the two range texts |
| Paging.GetRecords | src/framework/orm.h:547-573 | returns the rows of the window and answers true iff there are any; a failing query looks like none |
| Paging.CallEach | src/framework/orm.h:721-724 | one page's records are handed to F in order up to and including the first refused |
| Paging.Iterate | src/framework/orm.h:711-737 | terminates and calls F on the rows read page by page, record by record |
| Paging.StopsAtFirstRefusal | src/framework/orm.h:721-724 | the calls are the rows in order up to and including the first F refuses, all of them if it refuses none |
| Paging.EveryRowIsSeen | src/framework/orm.h:715-728 | for every table size the pages are the whole table, each row once, iff no query fails |
| Paging.FailureCutsShort | src/framework/orm.h:720-732 | a failing query ends the rows at its page, and the iteration still answers true |
| Cidr.MatchIsPrefix | src/framework/CIDR.h:16-21 | an IPv4 match is agreement on the first bits, for 0 to 32 bits (section 3.1 of RFC 4632) |
| Cidr.MatchIsInterval | src/framework/CIDR.h:16-21 | the matched addresses are exactly one aligned interval |
| Cidr.MatchEitherWay | src/framework/CIDR.h:67-68 | it does not matter which of address and range is passed first |
| Cidr.PrefixIsSpan | src/framework/CIDR.h:116-138 | a prefix range means the same as the "lo-hi" range of its first and last address |
| Cidr.NestedOrDisjoint | src/framework/CIDR.h:16-21 | two IPv4 blocks are nested or disjoint |
| Cidr.BitPlaces | src/framework/CIDR.h:16-21 | the byte order of a word, and that its first bit is the highest and its last the lowest |
| Cidr.Match6IsPrefix | src/framework/CIDR.h:23-46 | whole words and one masked word together are agreement on the first bits, for 0 to 128 bits (section 2.3 of RFC 4291) |
| Cidr.Match6IsInterval | src/framework/CIDR.h:23-46 | the matched IPv6 addresses are exactly one aligned interval |
| Cidr.Prefix6IsSpan | src/framework/CIDR.h:116-138 | an IPv6 prefix range means the same as the "lo-hi" range of its first and last address |
| Cidr.NestedOrDisjoint6 | src/framework/CIDR.h:23-46 | two IPv6 blocks are nested or disjoint |
| Cidr.BitPlaces6 | src/framework/CIDR.h:23-46 | the same over the four words of an IPv6 address, the first word first |
| Fifo.FIFO.constructor | src/framework/MicroServiceExtra.h:49-49 | a new buffer is empty and has counted nothing; only a buffer of size zero cannot be used |
| Fifo.FIFO.Read | src/framework/MicroServiceExtra.h:54-70 | returns and removes the oldest item, or reports empty and changes nothing |
| Fifo.FIFO.Write | src/framework/MicroServiceExtra.h:72-87 | appends the item, counts it and answers false; taking the last place empties the buffer |
| Fifo.FIFO.MaxEverUser | src/framework/MicroServiceExtra.h:94-94 | returns the running maximum |
| Fifo.QueueIffItFits | src/framework/MicroServiceExtra.h:54-87 | over any run the buffer holds what an unlimited queue would iff never more than Size - 1 items are outstanding |
| Fifo.FittingRun | src/framework/MicroServiceExtra.h:54-94 | then all reads answer as the queue does, Used_ is its length and MaxEverUsed_ the running maximum |
| Fifo.UsedIsModular | src/framework/MicroServiceExtra.h:54-87 | whether or not it fits, Used_ counts writes less successful reads in 32 bits |
| Fifo.FullLooksEmpty | src/framework/MicroServiceExtra.h:72-80 | with Size items outstanding the buffer reports empty |

## Left out

- Sockets, TLS, HTTP and bus traffic, database drivers: steps that succeed or fail. `close` and the reactor's add and remove are taken not to throw; inserting a result is taken to succeed.
- Devices.SimulationRunner.Acknowledge: does not model UUID_, configuration and intervals that configuring sets; no modelled property reads them.
- Devices.SimulationRunner.Restart: does not model Version_, Firmware_ and the reset mock counters.
- Devices.SimulationRunner.OnSocketReadable: does not model the received bytes counted in SimStats.
- Devices.SimulationRunner.Stop: does not model `Clients_.clear()` and the reactors, because events and threads keep the clients alive by their shared pointers.
- Devices.SimulationRunner.Run: the reactors, the update timer and the random start delays are not modelled.
- Delays, intervals and the order in which due events fire: any pending event may fire next.
- KeepAlive, Update, CrashLog and PendingConfig events: nothing posts them.
- Stats.SimStats.GetCurrent: does not model the rx, tx, message and error tallies, which are summed like liveDevices; AddInMsg, AddOutMsg and Reset are left out with them.
- Counters are unbounded where 2^64 (slots, paging) cannot be reached by counting.
- Coordinator.SimulationCoordinator.StartSim: does not model that the runner's thread may count a connection before the slots exist; each operation is atomic.
- Coordinator.SimulationCoordinator.Finish: does not model the calls that stop or cancel the run on the secondaries.
- Coordinator.SimulationCoordinator.ExpireRuns: one clock reading per round, for the end times too; the order of the map is a parameter.
- Cluster.SumAgainstExpected: begins when all nodes have been started; reports may be delivered in any order, and late.
- Devices.SimulationRunner.EstablishConnection: which gateways Poco::URI refuses and which certificates cannot be loaded is not modelled; it is an outcome.
- Devices.SimulationRunner.CreateClients: the interfaces of the built-in configuration are taken to be there, with at least one SSID and band, as they are.
- CounterRuns.CounterIsRightIff: a step sees one value of Running(), read under the mutex; the source's events read it just before they take the mutex, so one that passed the test may still act after Stop.
- Cluster.DisciplineIsRoomy: the same, where it speaks of nodes that are stopped.
- Simulations.SimulationHandler.DoPost: does not model JSON syntax, null members or a failing database; the new record's identifier is a parameter and fresh.
- The access checks and error texts of the REST handlers beyond the guards named above.
- RateLimiter.RESTAPI_RateLimiter.IsRateLimited: does not model eviction from the cache or hash collisions.
- Registry.MicroService.BusMessageReceived: does not model JSON syntax or the token cache; GetServices, a filter over the map, is left out.
- Naming.SerialAsNumber: a NUL character inside a macPrefix, where the C string would end, and locales other than C are not modelled.
- Configuration.AssociationTable.UpdateConfiguration: does not model the random stations of an association, nor lan clients and radios.
- Where.WhereAndReadsBack: floating-point values enter as std::to_string has rounded them to millionths.
- The CREATE TABLE and index texts, select, delete and order-by statements, the record cache.
- Paging.Iterate: the table does not change and is returned in the same order; F does not throw.
- Cidr.MatchIsPrefix: prefix lengths are already parsed and at most 32 (128 for IPv6); the words are those of a machine that stores the low byte first.
- Parsing of addresses and ranges, the list form and the single-address form of a range.
- Fifo.FIFO.Write: requires a buffer of at least one place; in one of size zero the source writes outside it. The notifications and isFull are left out.
