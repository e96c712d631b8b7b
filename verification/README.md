# Localized causal broadcast over lossy links

The program runs one process of a group of `n`. Each process broadcasts numbered messages; every
process writes a log of what it broadcast and what it delivered. Between the application and UDP sit
four layers, and each relies on the one below:

- a **link** between every two processes, which numbers messages, retransmits until acknowledged and
  suppresses duplicates (`Link`, `Bits`, `PerfectLink`, `Retransmission`, `Peers`, `Backoff`, `RollingSet`);
- **best-effort broadcast**, which sends to `ceil(n/4)` processes on each side of a ring (`Ring`);
- **uniform reliable broadcast**, which relays a message once and delivers it after hearing it from a
  majority; a message to oneself is delivered inside the send, so delivery re-enters itself
  (`Quorum`, `KeySet`, `UniformReliableBroadcast`);
- **localized causal broadcast**, which holds messages back until everything they depend on has been
  delivered (`CausalOrder`, `Confluence`, `Redelivery`, `LocalizedCausalBroadcast`), with FIFO broadcast as its
  simpler relative (`FifoBroadcast`).

A separate script checks the logs of a run in one pass (`Validator`, `RenderedRuns`).

## How the parts fit together

Every layer is described twice. The classes (`RollingBitset`, `KeySet`, `Worker`, `Peer`, `PeerTable`,
`UniformReliable`, `LocalizedCausal`, `Fifo`, `Process`) update their fields in place with the loops and
the nested calls of the program; a `Process` holds the whole stack, from the frame that arrives to the
log. Each method is proved to compute a function of the old state (`Quorum.React`, `CausalOrder.Accept`,
`Link.Issue`, `Link.Take`, `Stack.OnFrame`, ...). The theorems are about these functions.

`LossySystem` puts `n` processes together over links that lose, duplicate and reorder. A step is one
iteration of one main loop, an acknowledgement that arrives, one iteration of one retransmission worker,
or a crash. `Embedding` shows that every run of `LossySystem` is, for each process, a run of what its
`Process` object does: same layers, same ends of the links, and on the network exactly what the object
transmitted (`Embedding.RunIsOwn`). Hiding the links gives `System`, whose channels hand up every message at
most once and lose nothing (`LossySystem.NextRefines`). `Invariants` and `Hearing` prove what every step of
`System` keeps; `Causality`, `Dissemination`, `Completeness` and `AcceptedRuns` draw the consequences, and
`Guarantees` restates them for every reachable state of `LossySystem`.

In `LossySystem` any process may broadcast at any time, so what is proved of all its reachable states holds
under every schedule. What states are *possible* depends on the schedule, so it is decided in `Program`,
which adds the loop of the program to every process: `m` messages each, `m < 2^32`, and at most `m`
receptions between two broadcasts until the last one. `Scheduling` shows that an iteration of the loop in
`MainLoop`, and so in `Process`, is a step of `Program`, and the other way round. `Transmission`,
`Continuation` and `Completion` show how a state of `Program` can go on; `Agreement` and `LogAgreement` use
that to decide exactly when survivors are sure to agree. `LateAcknowledgements` is about one link,
`FiniteSets` about sets.

Fixed throughout: `2 <= n <= 128`; all processes have the same configuration with one dependency line
per process; process `p` broadcasts 0, 1, 2, ...

## What turned out not to hold

- Uniform reliable broadcast does not guarantee that all survivors of a minority crash deliver the same
  messages. They are sure to agree exactly when every survivor still has a majority of all processes
  around it (`Agreement.AgreementIff`), and the same condition decides it for the logs of the applications
  (`LogAgreement.LogAgreementIff`). For `n >= 3` it is met by every crash of up to `f` processes exactly
  when `f <= 2 * ceil(n/4) - floor(n/2)` (`Agreement.HarmlessCrashes`): none at all if `n` is a multiple of
  four, two if `n` is one more than that, and one otherwise (`Agreement.SpareValue`). What does hold after
  every minority crash is that all survivors get the message (`Dissemination.UniformDissemination`), and
  `Hearing.DeliveryConditionAfterCrashes` says which of them deliver it in a given run.
- The delivery rule of localized causal broadcast accepts a number that is *below* the clock. A message
  that arrives again is delivered again exactly when its key had been delivered before
  (`Redelivery.RedeliveryIff`). FIFO order rests on the layer below delivering at most once.
- The set of acknowledged numbers does not only hold numbers that wait for their entry to be dropped. A run
  keeps to such numbers exactly when the worker never takes an acknowledgement whose number is neither
  queued nor scheduled any more (`LateAcknowledgements.ConfinedIff`), which happens
  (`LateAcknowledgements.GoesStale`). The number then stays for ever (`LateAcknowledgements.StaleForever`)
  and does no harm: every timeout drops and transmits what it would without it
  (`LateAcknowledgements.StaleIsHarmless`).
- The window of the set of seen numbers does not always move on. It leaves a chunk exactly when the chunk is
  filled after the window came to it (`RollingSet.WindowLeavesIff`). A chunk that is filled before the one in
  front of it is never left (`RollingSet.OvertakenStops`), since numbers that were found are not inserted again
  (code/src/src/perfect-link.cpp:129-132), and from there on every bitmap is kept. `RollingSet.WindowStops`
  gives an order in which that happens. The set itself stays right.
- After a delivery during the relay, an empty entry for the delivered key is left in `ack`; after a
  delivery without a relay it is not (`Quorum.AtMostOnce`).
- Removing `r` processes can disconnect the ring exactly when `2 * ceil(n/4) <= r <= n - 2`
  (`Ring.CutIff`). Half of the processes can do it exactly when `n` is a multiple of four
  (`Ring.HalfCuts`).

## Model

| member | source | states |
|---|---|---|
| Guarantees.CausalOrderEverywhere | code/src/src/localized-causal-broadcast.cpp:12-51 | in every reachable state over lossy links with crashes: along any chain of "earlier from the same process" or "delivered from a declared dependency before broadcasting", whoever delivered the last message delivered the first one before it |
| Guarantees.ClockIsGreatest | code/src/src/localized-causal-broadcast.cpp:38-51 | in every reachable state the clock of a process is causally closed over what it received, and no causally closed clock exceeds it anywhere: nothing deliverable is held back |
| Guarantees.NoCreationNoDuplication | code/src/src/uniform-reliable-broadcast.cpp:31-52 | in every reachable state each delivery has its "b" event, with the same vector clock, in the log of its originator, and no log delivers a key twice |
| Guarantees.EveryRunIsAccepted | validate.py:251-331 | the logs of every reachable state, event by event, satisfy what the log checker decides about their lines |
| Guarantees.DeliveredReachesSurvivors | code/src/src/uniform-reliable-broadcast.cpp:31-52 | when fewer than half crashed and no worker of a survivor has a message for a survivor left, everything that any process, crashed or not, delivered in URB is held by every survivor |
| Guarantees.DeliveredWhereMajoritySurvives | code/src/src/uniform-reliable-broadcast.cpp:31-37 | under the same conditions a survivor whose surviving closed neighbourhood exceeds n/2 delivers it too |
| Guarantees.DeliveredIffHeardFromMajority | code/src/src/uniform-reliable-broadcast.cpp:31-52 | in every reachable state a key is URB-delivered at a process if and only if copies from more than n/2 distinct processes, itself included, were handed up there |
| Guarantees.DeliveryAfterCrashes | code/src/src/uniform-reliable-broadcast.cpp:31-52 | after a minority crash with idle links, a survivor has delivered what a survivor holds if and only if the survivors around it and the crashed processes it heard from in time together exceed n/2 |
| Guarantees.EverythingDelivered | code/src/src/localized-causal-broadcast.cpp:38-51 | without crashes, idle links mean that every process delivered every broadcast, all clocks equal the broadcast counts and all heaps are empty |
| Guarantees.EverythingCanBeDelivered | code/src/src/localized-causal-broadcast.cpp:38-51 | from every state that the program with `m` messages per process can reach without a crash, a run of the program, with its quota of receptions, leads to a state in which every process has broadcast its `m` messages and delivered all `m` messages of every process |
| Completion.IdleIsPossible | code/src/src/main.cpp:88-108 | every state that the program can reach can be continued by a run of the program, without another crash, to one in which every survivor has broadcast its `m` messages and the links between survivors are idle; nothing pending or delivered is forgotten |
| Completion.SendRest | code/src/src/main.cpp:88-101 | from every state with the invariants the processes that are up can broadcast all the rest of their messages before anything else is handed up |
| Program.NextIsStep | code/src/src/main.cpp:88-108 | every step of the program with its quota is a step of the system without it |
| Program.ReachableInSystem | code/src/src/main.cpp:88-108 | so every state that the program can reach is reachable in the system, and has all the guarantees |
| Program.NumbersNeverRunOut | code/src/include/message.hpp:14-15 | with `n <= 128` and a 32-bit `m`, every link has used at most `n * m < 2^63` numbers in every state that the program can reach: the top bit stays free for acknowledgements |
| Continuation.Drive | code/src/src/perfect-link.cpp:122-135 | in any run of the program that has broadcast everything: on any set of links to processes that are up, everything issued, and everything relayed on these links meanwhile, can arrive, without anything being handed up on other links |
| Continuation.Settle | code/src/src/perfect-link.cpp:84-96 | when everything on a link was handed up, its worker can become idle, unnoticed by the processes and without touching another link |
| Continuation.IdleIsQuiet | code/src/src/perfect-link.cpp:84-96 | when no worker of a survivor has a message queued or scheduled for a survivor, everything issued between survivors was handed up |
| Agreement.AgreementIff | code/src/src/uniform-reliable-broadcast.cpp:31-52 | for every minority crash set and every `m >= 1`: survivors agree on URB deliveries in all states in which the program can come to rest with these crashes, everything broadcast, if and only if each survivor's closed neighbourhood without the crashed exceeds n/2; the same for agreement with crashed processes |
| Agreement.HarmlessCrashes | code/src/src/best-effort-broadcast.cpp:17-18 | for n >= 3, 2f < n and m >= 1: agreement is safe from every crash of up to `f` processes if and only if f <= 2 * ceil(n/4) - floor(n/2) |
| Agreement.SpareValue | code/src/src/best-effort-broadcast.cpp:17-18 | 2 * ceil(n/4) - floor(n/2) is 0 if n is a multiple of four, 2 if it is one more, and 1 otherwise |
| Agreement.Disagreement | code/src/src/uniform-reliable-broadcast.cpp:31-52 | for every such crash set that leaves a survivor too few around it, and any other survivor: a run of the program in which everything was broadcast and the links are idle, the other survivor delivered its first message, and this one did not |
| LogAgreement.LogAgreementIff | code/src/src/localized-causal-broadcast.cpp:38-51 | the same condition decides agreement on the deliveries in the logs, among survivors and with crashed processes |
| LogAgreement.AgreedLogs | code/src/src/localized-causal-broadcast.cpp:38-51 | if every survivor has delivered in URB what anyone has, every message delivered in any log, even that of a crashed process, is delivered in every survivor's log: nothing is held back at one and not at another |
| LogAgreement.SurvivorsComplete | code/src/src/localized-causal-broadcast.cpp:38-51 | at rest after a minority crash that leaves a majority around each survivor, the log of each survivor has every message of every survivor, all `m` of each |
| LogAgreement.SurvivorsMessagesLogged | code/src/src/localized-causal-broadcast.cpp:23-51 | a process that received every survivor's messages and is behind no survivor delivers them all, whatever messages of crashed processes are missing |
| LossySystem.NextRefines | code/src/src/perfect-link.cpp:62-135 | every step over links that retransmit on a lossy, duplicating, reordering network is a step over exactly-once channels, or changes nothing the processes can see |
| LossySystem.ReachableInv | code/src/src/main.cpp:88-108 | every reachable state satisfies all system invariants and all link invariants |
| LossySystem.ArrivalRefines | code/src/src/perfect-link.cpp:122-135 | an arriving frame is either a duplicate that no process notices or exactly one reception on the channel, with the content that was issued under that number |
| Invariants.NextKeeps | code/src/src/uniform-reliable-broadcast.cpp:19-52 | acknowledgements come from holders, delivered is within pending, a delivery has a majority of holders nearby, every held key was issued once on every link, logs and clocks agree: every step keeps all of it |
| Invariants.BroadcastDeliversNothing | code/src/src/localized-causal-broadcast.cpp:12-21 | sending one's own message adds one key heard from oneself, and delivers nothing in any layer |
| Invariants.ReceiveKeeps | code/src/src/uniform-reliable-broadcast.cpp:39-52 | a reception with its relay, nested delivery and upward delivery keeps every invariant |
| Invariants.SameKeySameMessage | code/src/include/message.hpp:39-43 | two broadcast messages with equal originator and number are equal: comparing by key loses nothing |
| Causality.CausalDelivery | code/src/src/localized-causal-broadcast.cpp:23-51 | transitive localized causal order over the exactly-once channels, with the position of the earlier delivery |
| Causality.ClockCountsDependency | code/src/src/localized-causal-broadcast.cpp:15-18 | a message of a dependency delivered before a broadcast is counted in the vector clock of that broadcast, at the position of that dependency |
| Causality.OneContentPerKey | code/src/src/uniform-reliable-broadcast.cpp:44-50 | any copy on any link and any log entry under the same key are the same message, the one its originator logged as broadcast |
| Causality.NoDuplication | code/src/src/uniform-reliable-broadcast.cpp:31-42 | no log holds two deliveries of the same originator and number |
| Hearing.DeliveredIffHeard | code/src/src/uniform-reliable-broadcast.cpp:31-45 | delivered if and only if heard from a majority, for every state with the invariants |
| Hearing.NextHearing | code/src/src/uniform-reliable-broadcast.cpp:44-50 | every step keeps: acknowledgements were really handed up from the processes they name, and each delivery saw a majority of them |
| Hearing.DeliveryConditionAfterCrashes | code/src/src/uniform-reliable-broadcast.cpp:31-37 | the exact condition under which a survivor of a minority crash has delivered what some survivor holds |
| Dissemination.UniformDissemination | code/src/src/uniform-reliable-broadcast.cpp:31-52 | a key delivered anywhere, even at a process that crashed later, is pending at every survivor once nothing is outstanding between survivors of a minority crash |
| Dissemination.HolderReachesAll | code/src/src/uniform-reliable-broadcast.cpp:45-50 | one surviving holder is enough for the key to reach all survivors |
| Dissemination.DeliveryCondition | code/src/src/uniform-reliable-broadcast.cpp:31-37 | for a key that no crashed process held: a survivor delivers it if and only if the survivors around it exceed n/2 |
| Dissemination.StressTestLimit | validate.py:344-349 | the stress test's limit on terminated processes is exactly the minority assumption |
| Completeness.FaultFreeCompleteness | code/src/src/localized-causal-broadcast.cpp:38-51 | without crashes and with nothing outstanding, every process delivered everything, its clock equals the broadcast counts, and nothing waits |
| Completeness.TotalsClosed | code/src/src/localized-causal-broadcast.cpp:23-36 | everything ever broadcast is causally closed: no vector clock asks for a message that does not exist |
| Completeness.OneTransmissionPerLink | code/src/src/uniform-reliable-broadcast.cpp:45-50 | in every state a key has used exactly one link sequence number on each link from a process that holds it, and none on any other link |
| Completeness.TransmissionsExactly | code/src/src/best-effort-broadcast.cpp:35-41 | for n >= 3, in every state, whatever was lost and whoever crashed: a message has cost exactly 2 * ceil(n/4) sends for each process that holds it, retransmissions aside |
| Completeness.TransmissionBound | code/src/src/best-effort-broadcast.cpp:35-41 | for n >= 3 that is at most n * (2 * ceil(n/4) + 1) sends, those to oneself included, retransmissions aside |
| Ring.CreateNConnectedRing | code/src/src/best-effort-broadcast.cpp:6-27 | the loop computes the specified list for every n >= 1, with the special cases n = 1 and n = 2 |
| Ring.AdjacentIffClose | code/src/src/best-effort-broadcast.cpp:20-25 | the neighbours are exactly the processes at ring distance 1 to ceil(n/4) |
| Ring.Symmetric | code/src/src/best-effort-broadcast.cpp:20-25 | whoever sends to a process also hears from it |
| Ring.Degree | code/src/src/best-effort-broadcast.cpp:6-27 | for every n >= 1 a list of other processes without duplicates, exactly 2 * ceil(n/4) of them for n >= 3, and the closed neighbourhood exceeds n/2 |
| Ring.SurvivorsConnected | code/src/src/best-effort-broadcast.cpp:6-27 | for every n >= 2 and every removal of fewer than 2 * ceil(n/4) processes, so of every minority, any two survivors are joined by a path of survivors |
| Ring.CutSize | code/src/src/best-effort-broadcast.cpp:17-18 | separating two survivors takes two disjoint runs of ceil(n/4) consecutive removed processes |
| Ring.CutIff | code/src/src/best-effort-broadcast.cpp:17-18 | removing r of n processes can disconnect the ring if and only if 2 * ceil(n/4) <= r <= n - 2 |
| Ring.HalfCuts | code/src/src/best-effort-broadcast.cpp:17-18 | half of 2m processes can disconnect the ring if and only if m is even |
| Confluence.OrderInsensitive | code/src/src/localized-causal-broadcast.cpp:38-51 | all arrival orders of the same messages end with the same clock, the same heaps and the same set of delivered messages |
| Confluence.ClockIsGreatestPrefix | code/src/src/localized-causal-broadcast.cpp:23-51 | in a stuck state the clock is the greatest causally closed prefix of what was received |
| Confluence.DeliveredSetIsPrefix | code/src/src/localized-causal-broadcast.cpp:42-47 | delivered is exactly what was received below the clock |
| Confluence.RunRepresents | code/src/src/localized-causal-broadcast.cpp:38-51 | after any arrivals the heaps hold exactly what was received and not delivered, the clock counts the log, and no heap top is deliverable |
| Redelivery.RedeliveryIff | code/src/src/localized-causal-broadcast.cpp:24-26 | in every state reached with one delivery per key from below: an arrival makes the log deliver its key twice if and only if its number is below the clock, which is if and only if the log delivered the key before |
| Redelivery.RedeliveredAtOnce | code/src/src/localized-causal-broadcast.cpp:40-47 | a delivered message that arrives again is the next delivery in the log |
| Redelivery.TwiceFromTheStart | code/src/src/localized-causal-broadcast.cpp:24-26 | in every configuration a first message without dependencies that arrives twice is delivered twice |
| CausalOrder.AcceptKeeps | code/src/src/localized-causal-broadcast.cpp:38-51 | one delivery from below, in any state: every released message is the next of its originator and has its dependencies before it, the log only grows, and the scan ends with nothing deliverable |
| CausalOrder.DrainStep | code/src/src/localized-causal-broadcast.cpp:40-51 | scanning on from a non-deliverable heap and restarting after a release both stay on the way to the same final state |
| CausalOrder.NotYetDelivered | code/src/src/localized-causal-broadcast.cpp:24-26 | a message that did not arrive before is not below the clock, so the test on its number is a test for equality |
| LocalizedCausalBroadcast.LocalizedCausal.AttachClock | code/src/src/localized-causal-broadcast.cpp:15-18 | one clock entry per declared dependency, in the declared order |
| LocalizedCausalBroadcast.LocalizedCausal.CanDeliver | code/src/src/localized-causal-broadcast.cpp:23-36 | decides deliverability: number not above the clock, and no recorded dependency above the clock |
| LocalizedCausalBroadcast.LocalizedCausal.Deliver | code/src/src/localized-causal-broadcast.cpp:38-52 | the restarting scan terminates and leaves heaps, clock and log as `Accept` gives them |
| Quorum.AtMostOnce | code/src/src/uniform-reliable-broadcast.cpp:31-52 | a reaction delivers exactly when it makes an undelivered key delivered, relays only a new key, forgets neither; after a delivery no acknowledgements are left, and an empty entry remains if and only if it relayed |
| Quorum.Remembers | code/src/src/uniform-reliable-broadcast.cpp:31-52 | a delivered key is never touched again; the acknowledgements of any other grow by the sender, and by oneself when relaying, until there is a majority |
| Quorum.OthersUntouched | code/src/src/uniform-reliable-broadcast.cpp:31-52 | no reaction touches what is recorded about another key |
| Quorum.NestedRelay | code/src/src/uniform-reliable-broadcast.cpp:44-51 | recording the sender, reacting to one's own copy, then trying again has the net effect of one reaction; the second try never delivers again |
| UniformReliableBroadcast.UniformReliable.Deliver | code/src/src/uniform-reliable-broadcast.cpp:39-52 | the re-entrant delivery terminates and its whole effect is one reaction: new sets, the upward delivery if any, and, if it relays, one packet and one queue entry per neighbour |
| UniformReliableBroadcast.UniformReliable.TryDeliver | code/src/src/uniform-reliable-broadcast.cpp:31-37 | delivers upward and forgets the acknowledgements if and only if they exceed n/2; otherwise only an entry may be created |
| UniformReliableBroadcast.UniformReliable.Send | code/src/src/uniform-reliable-broadcast.cpp:19-24 | an own broadcast marks the key pending, sends on the link to each neighbour, and reacts to its own copy |
| UniformReliableBroadcast.UniformReliable.BestEffortSend | code/src/src/best-effort-broadcast.cpp:35-41 | one packet to each neighbour under the next number of its link, then the delivery to oneself |
| UniformReliableBroadcast.UniformReliable.LinkSend | code/src/src/perfect-link.cpp:118-119 | to another process: the next number of the link, one entry in the worker's queue, one packet on the network |
| UniformReliableBroadcast.UniformReliable.SelfSend | code/src/src/perfect-link.cpp:107-116 | to oneself: a number is used up and the message is delivered on the spot, with the effect of one reaction |
| UniformReliableBroadcast.UniformReliable.LinkDeliver | code/src/src/perfect-link.cpp:122-135 | a frame changes only the end it belongs to; it is handed up if and only if it is a message with a new number, and a message is answered in any case |
| KeySet.KeySet.Contains | code/src/src/uniform-reliable-broadcast.cpp:8-10 | one windowed set per originator decides membership of a key |
| KeySet.KeySet.Insert | code/src/src/uniform-reliable-broadcast.cpp:4-6 | inserts exactly that key, and the other originators' sets stay as they are |
| RollingSet.RollingBitset.Insert | code/src/src/rolling-set.cpp:5-18 | insertion adds exactly that number to the set, across growth and rotation; the window moves by one chunk exactly if the number fell into its first chunk and that chunk is full afterwards, and its end moves to the chunk of the number if that lies beyond |
| RollingSet.RollingBitset.Contains | code/src/src/rolling-set.cpp:20-30 | true if and only if the number was inserted |
| RollingSet.RollingBitset.RotateChunks | code/src/src/rolling-set.cpp:32-35 | dropping the first chunk keeps the set, given that its counter says full |
| RollingSet.RollingBitset.PassedAllInserted | code/src/src/rolling-set.cpp:41-43 | every number behind the window was inserted |
| RollingSet.WindowLeavesIff | code/src/src/rolling-set.cpp:15-17 | over any run of new numbers: once the window has come to a chunk, it leaves it if and only if the chunk was not full then and is filled later |
| RollingSet.OvertakenStops | code/src/src/rolling-set.cpp:15-17 | if a chunk is ever full while the one before it is not, the window never moves past it |
| RollingSet.WindowStops | code/src/src/rolling-set.cpp:15-17 | a concrete start, the second chunk before the first, after which the window stays at 1 whatever new numbers follow |
| RollingSet.Chunk.Set | code/src/include/rolling-set.hpp:18-23 | sets the bit and keeps the 16-bit counter equal to the number of set bits |
| RollingSet.Chunk.FullIffAllSet | code/src/src/rolling-set.cpp:15-17 | the counter equals 512 if and only if no bit is missing |
| Link.ExactlyOnce | code/src/src/perfect-link.cpp:62-135 | over every run of a link on a losing, duplicating, reordering network: hand-ups have distinct numbers, carry the content sent under them and are exactly the numbers recorded as delivered; any other issued number is still queued or scheduled |
| Link.AckEncoding | code/src/src/perfect-link.cpp:16-29 | an acknowledgement is never taken for a message, names the number it acknowledges, and carries the key of the message with an empty vector clock |
| Link.AddedWaits | code/src/src/perfect-link.cpp:84-96 | the queue of a worker keeps its order: taking and adding commute while something is there, and what is added to an empty queue is taken next |
| Link.MasksAsArithmetic | code/src/src/perfect-link.cpp:11-29 | on numbers below 2^64 the arithmetic of the model is what the masks compute: testing the top bit with and, clearing it with and under the complement, setting it with or |
| Bits.KeepLowBits | code/src/src/perfect-link.cpp:27-29 | digit by digit, and with the mask of the k low bits removes 2^k from a number of k + 1 bits that has it, for every k |
| Bits.SetTopBit | code/src/src/perfect-link.cpp:21-25 | digit by digit, or with the top bit adds 2^k to a number of k + 1 bits that lacks it, for every k |
| Link.ReceiveKeeps | code/src/src/perfect-link.cpp:122-135 | an arriving message has the content issued under its number, and the link invariant is kept |
| Link.ExpireKeeps | code/src/src/perfect-link.cpp:62-78 | an entry leaves the retransmission heap only if the receiver has the message |
| Link.InternalKeeps | code/src/src/perfect-link.cpp:84-96 | no worker step or acknowledgement changes what was issued or handed up, and nothing issued is lost |
| Link.IdleMeansDelivered | code/src/src/perfect-link.cpp:84-96 | when the worker has no message left, the numbers handed up are exactly the numbers issued |
| LateAcknowledgements.ConfinedIff | code/src/src/perfect-link.cpp:84-96 | a run keeps acknowledged numbers to those queued or scheduled if and only if no acknowledgement was taken whose number was neither |
| LateAcknowledgements.TakeConfined | code/src/src/perfect-link.cpp:90-95 | taking an item keeps acknowledged numbers to those queued or scheduled if and only if it is a message or acknowledges such a number |
| LateAcknowledgements.StaleForever | code/src/src/perfect-link.cpp:62-78 | in every run of a link, a number acknowledged but neither queued nor scheduled stays so for ever |
| LateAcknowledgements.StaleIsHarmless | code/src/src/perfect-link.cpp:71-76 | whatever timer expires, the worker drops and transmits exactly what it would without the stale number |
| LateAcknowledgements.GoesStale | code/src/src/perfect-link.cpp:62-96 | a run of a link, for any message, that ends idle with a stale number |
| PerfectLink.Worker.Step | code/src/src/perfect-link.cpp:84-96 | one iteration takes one item from the queue, or handles the earliest expired entry, and nothing else |
| PerfectLink.Worker.TryPop | code/src/src/perfect-link.cpp:45-60 | takes an item exactly when no timer has expired and one is there |
| PerfectLink.Worker.HandleTimeout | code/src/src/perfect-link.cpp:62-78 | drops an acknowledged entry with its acknowledgement, otherwise sends it again at this time with its timer doubled; fewer timers are due afterwards |
| PerfectLink.Worker.CatchUp | code/src/src/perfect-link.cpp:62-89 | at a fixed clock the worker handles exactly as many timeouts as timers are due, so at most as many as there are entries, and then polls its queue; each due entry without an acknowledgement has then been sent again once, at that time, and is still scheduled; each due entry with one has left with it; nothing else was sent, dropped or timed |
| Retransmission.OneTimeout | code/src/src/perfect-link.cpp:62-78 | handling one expired timer keeps that account for all entries |
| Retransmission.DueIsUnhandled | code/src/src/perfect-link.cpp:71-77 | an entry that is due has not been handled at that time before: the doubled timer is later than the clock |
| PerfectLink.DueBound | code/src/src/perfect-link.cpp:55-59 | at most as many timers are due as entries are scheduled |
| PerfectLink.Peer.Work | code/src/src/perfect-link.cpp:84-96 | one iteration of the worker of a peer takes the item in front, or drops or retransmits the entry on top, as the link's steps do, or finds nothing; the numbers seen from the peer stay |
| PerfectLink.Worker.CopiesAreFew | code/src/include/exponential-backoff.hpp:13-16 | r retransmissions of a scheduled entry mean that at least 100 * (2^r - 1) ms passed since it was scheduled |
| PerfectLink.Peer.Send | code/src/src/perfect-link.cpp:107-120 | numbers the message, queues it for the worker, transmits it once |
| PerfectLink.Peer.Deliver | code/src/src/perfect-link.cpp:122-135 | an acknowledgement is queued for the worker; a message is handed up if and only if its number is new, and acknowledged either way |
| PerfectLink.ConcurrentQueue.TryPop | code/src/include/concurrent-queue.hpp:34-42 | removes and returns the oldest item, or nothing from an empty queue |
| PerfectLink.ScheduleEarliestFirst | code/src/src/perfect-link.cpp:37-43 | insertion keeps the entry with the earliest timeout on top |
| Backoff.RetransmissionBound | code/src/include/exponential-backoff.hpp:9-16 | the k-th retransmission comes no earlier than 100 * (2^k - 1) ms after scheduling |
| Backoff.AfterIsExponential | code/src/include/exponential-backoff.hpp:13-16 | after k retries the timeout is 100 * 2^k ms, counted from the last retry |
| Process.Process.Broadcast | code/src/src/main.cpp:97-99 | the broadcast branch sends the next message with its clock down the stack, then logs and counts it |
| Process.Process.Receive | code/src/src/main.cpp:92-94 | handling any frame: an acknowledgement goes to the worker; a first copy goes through all layers; every message is acknowledged |
| Process.Process.Work | code/src/src/perfect-link.cpp:84-96 | one iteration of a worker beside the loop: if no timer of its entries has expired at its start and an item is queued, it takes the item; otherwise it drops or sends again the entry on top, at the time it acts; it does nothing only if queue and entries are both empty |
| Stack.WorkedIsWorks | code/src/src/perfect-link.cpp:84-96 | what a worker takes, drops, keeps and transmits is a function of its queue, its entries and the clock, and a step of the link unless there is nothing to do |
| Stack.MessageIsAnswered | code/src/src/perfect-link.cpp:122-135 | handling a frame leaves all earlier traffic as it was; after a message its number counts as seen, and the last thing transmitted is its acknowledgement, to its sender |
| Process.Process.BroadcastAll | code/src/src/main.cpp:88-101 | the loop terminates in the state and after the number of iterations that `Loop` gives, whatever frames arrive; what `Loop` means is in `Scheduling` |
| Scheduling.IterationIsStep | code/src/src/main.cpp:90-99 | one iteration of the loop of a process in the program, with a frame that is under way: with quota left it is the arrival of that message or acknowledgement at this process, otherwise a broadcast, with the same layers, ends, traffic and quota afterwards |
| Scheduling.StepIsIteration | code/src/src/main.cpp:90-99 | the other way round, every step of the program is, for each process with messages left, an iteration of its loop or of one of its workers, or nothing to it, with the same quota |
| Scheduling.LoopIsRun | code/src/src/main.cpp:88-101 | the whole loop, with any frames under way: a run of the program takes the process to the layers, ends and traffic in which the loop ends |
| Stack.FanoutUsesEveryLinkOnce | code/src/src/best-effort-broadcast.cpp:35-41 | what is sent is one packet on every link of the process, each under the next number of that link, and nothing else |
| Embedding.BroadcastIsPart | code/src/src/main.cpp:97-99 | a broadcast changes the layers, the ends and the traffic of the process as the broadcast step of the system changes them |
| Embedding.ArrivalIsPart | code/src/src/perfect-link.cpp:122-135 | handling a message frame, duplicate or first copy, changes the process and its traffic, acknowledgement included, as its arrival in the system does |
| Embedding.AcknowledgementIsPart | code/src/src/perfect-link.cpp:124-127 | handling an acknowledgement changes the process as its arrival in the system does |
| Embedding.WorkIsPart | code/src/src/perfect-link.cpp:84-96 | what the worker of the system does, the worker of the process does, with the same retransmission |
| Embedding.WorkIsStep | code/src/src/perfect-link.cpp:84-96 | whatever the worker of the process does, with what it transmits, is a step of the system |
| Embedding.StepIsOwn | code/src/src/main.cpp:88-108 | every step of the system is, for each process, one of the things its object does, or nothing to it |
| Embedding.StartsAsPart | code/src/src/main.cpp:88-91 | a new process is the part of the initial state of the system |
| Embedding.RunIsOwn | code/src/src/main.cpp:88-108 | every run of the system is, for each process, a run of what its object does from its initial state, with the same layers, ends and traffic at every moment |
| Peers.PeerTable.Send | code/src/src/perfect-link.cpp:107-120 | sending to one peer changes that end only |
| Peers.PeerTable.Deliver | code/src/src/perfect-link.cpp:122-135 | a frame from one peer changes that end only |
| Peers.PeerTable.Work | code/src/src/perfect-link.cpp:84-96 | an iteration of the worker towards one peer changes that end only |
| MainLoop.LoopBound | code/src/src/main.cpp:88-101 | whatever arrives, m messages are broadcast within m * (m + 1) iterations |
| Validator.CreateMessageDependencies | validate.py:291-331 | accepts a log if and only if broadcasts and each sender's deliveries are numbered 1, 2, 3, ..., and returns the clock before each broadcast |
| Validator.CheckLog | validate.py:264-288 | accepts if and only if at every delivery from `pid` no required number exceeds the last one seen; fails with a missing key if and only if some delivery finds no entry and every line before it is in order |
| Validator.CheckProcess | validate.py:251-289 | accepts `pid` if and only if its log is contiguous and every delivery of its messages elsewhere is in time; fails with a missing key if and only if its log is contiguous and the first line of all with something wrong delivers a message that `pid` did not broadcast |
| Validator.CheckAll | validate.py:157-167 | accepts if and only if the logs respect all dependencies; fails without a verdict if and only if the check of some process does, and, when it stops at the first failure, every process before is accepted |
| Validator.OnePassIsExact | validate.py:251-331 | for all logs: the counter-and-clock pass accepts if and only if every log is contiguous, every delivered message has its "b" line, and each dependency delivered before a broadcast occurs before that broadcast's delivery in every other log |
| Validator.ClockComparison | validate.py:274-288 | comparing counters is the same as looking for every single dependency line |
| AcceptedRuns.LogsAccepted | validate.py:251-331 | whatever state the system is in, its rendered logs respect all dependencies |
| RenderedRuns.RespectfulIff | validate.py:251-331 | for any logs of events at all: the lines they are written as respect the dependency lines if and only if broadcasts and deliveries are numbered without gaps, and every delivery elsewhere comes after what the broadcaster had delivered from its dependencies |
| FifoBroadcast.Fifo.Deliver | code/src/src/fifo-broadcast.cpp:14-21 | adds the message and releases exactly the numbers that follow without a gap, in order: the state changes as `Accept` says, and the other queues stay |
| FifoBroadcast.MonotonicQueue.PopNext | code/src/include/monotonic-queue.hpp:19-24 | removes and returns an item with the least number in the queue, and expects the next number |
| FifoBroadcast.SameAsCausalWithoutDependencies | code/src/src/localized-causal-broadcast.cpp:38-51 | with empty dependency lists, localized causal broadcast and FIFO broadcast go through the same states and logs from any arrivals |

## Left out

- UDP sockets, the TCP barrier and finish signal, host and command-line parsing, process launching and
  signals: input and output. `n`, the process id and the dependency lines are given.
- The byte layout of `Message` and the sizes set from packet lengths: messages are values.
- The fixed capacity of 128 entries of `StaticVec`: dependency lines are sequences of any length.
- Log files: the log is a sequence of events. Flushing repeats earlier output, because clearing the
  stream's state does not empty it (code/src/src/logger.cpp:14-19), so a log file can differ from the
  history of events.
- Threads, locks and condition variables: the worker and the main loop take turns in atomic steps, and a
  blocking pop is a pop that happens once an item is there.
- A crash in the middle of an iteration: crashes fall between steps. A crash that lets out only some of
  the packets of an iteration is covered for the other processes, since any packet may never arrive.
- The queue between the receiving thread and the loop: a frame counts as under way until the loop takes it,
  and a broadcast before the quota is used up is one that found the queue empty.
- Real time: only the backoff bound has a clock; elsewhere a timer may expire at any moment.
- Overflow of sequence numbers in `LossySystem`: a link sends only while its next number is below 2^63. In
  `Program`, where `m` is a 32-bit number, it always is (`Program.NumbersNeverRunOut`).
- The binary heaps: they are sequences in ascending order. Ties keep the order of arrival; in a run two
  waiting messages of one originator never tie.
- `Message` addressing below the link: the fair-loss link stamps the sender
  (code/src/src/fair-loss-link.cpp:14-15); here every packet belongs to a pair of processes.
- FifoBroadcast.MonotonicQueue.HasNext: false on an empty queue, where the program reads the top of an
  empty heap.
- Guarantees.DeliveredWhereMajoritySurvives: does not claim delivery at every survivor, because that is
  false (`Agreement.AgreementIff`).
- Completeness.TransmissionBound: counts link sequence numbers, not the retransmissions under them.
- The last loop of the program, which only receives: each iteration is `Process.Process.Receive`, and its place
  in a run is `Embedding.StepIsOwn`.
- The threads of the workers in `Process`: one iteration is `Process.Process.Work`; how the iterations
  interleave with the loops is in `LossySystem`.
- Splitting log lines into tokens: the checker starts from parsed lines, and a line of another form is
  ignored. An empty line, on which the script fails, is not modelled.
- The FIFO-only log checker, `StaticVec::pop_back`, the serializer and the unused `can_deliver` of
  uniform reliable broadcast: they would only add easy members.
