# Verification of the energy management system's hard core

A Dafny model of the parts of the energy management system whose correctness cannot be read off one
function body, and proofs about all their inputs, runs and interleavings. `dafny verify
dfyconfig.toml` checks the whole project.

## What is modelled

**The lockstep replay barrier.** A backtest replays a file of device payloads against algorithms that
run on their own threads. `SimulationClock.dfy` holds the clock and its participants: every critical
section is a function on the value the condition guards, and the class `SimulationClock` is proved to
perform exactly those effects. `Backtest.dfy` is the reference: the backtest with no threads in it,
which delivers one maximal run of equal timestamps, runs every algorithm's `main()` once on the
devices as they then are, and goes on. `Lockstep.dfy` is the program as it is: the main thread
constructing plugins, the replay thread, and one thread per algorithm under its supervisor, with
crashes, restarts, backoffs, stops, required-device delays and expiring waits, each step atomic. A
schedule is any sequence of their steps. `LockstepInvariant.dfy` finds what every schedule keeps, and
`LockstepTheorems.dfy` says what that means: the backtest is deterministic, a crash costs time and
never a timestep, and nobody who cannot answer holds the barrier. `LockstepStamps.dfy` follows what an
algorithm sees and how its decisions are stamped through stopped runs too, `LockstepProgress.dfy`
bounds every wait, and `LockstepLive.dfy` says what happens outside a replay: how often a live
algorithm runs, that nobody leaves without having run, and what a stop stops and how soon.
`PseudoConnector.dfy` and `Algorithm.dfy` have the two loops as the methods they are, with their fields and the clock object
changed in place: each is proved to take only steps its thread has in the model, whatever the other
threads do in between, and every step of the model is shown to be one such a method can meet.

**Supervision.** `Supervisor.dfy` is one supervised worker with its restart budget and backoff, the
policy as it is read from the configuration, and the shared grace period in which all of them are wound
down.

**Bounded dispatch in the MQTT connector.** `MqttDispatch.dfy` has one device's inbox: the bounded
queue as an object, and the network thread, the dispatch thread and the two releases that race with
them as a transition system at the grain of single queue operations. `MqttInvariant.dfy` proves
order, freshness, conservation and that shutdown loses no wake-up; `MqttDelivery.dfy` that a payload
is lost only for one of three causes, what an overflow costs, and how soon every arrival is delivered.

**DSMR telegrams.** `Crc.dfy` has the checksum loop of `parsers/obis.py` and its algebra: it is the
remainder of textbook division by x^16 + x^15 + x^2 + 1, from which linearity, burst and odd-weight
detection follow. `Obis.dfy` has the parser, with its four patterns as direct matchers;
`Telegrams.dfy` has a printer and what the two do together; `TelegramGrammar.dfy` writes the grammar
forwards and shows that the parser accepts exactly it. The frame is that of section 6.2 of the
DSMR 5.0.2 P1 Companion Standard, its header that of IEC 62056-21.

**The decision log.** `Decisions.dfy` has the bounded ring and its cursor, and a client that pages
while writers append and evict; `DecisionFunnel.dfy` has the two steps a decision takes into the log
and into a storage file.

**Three device protocols.** `HomeAssistant.dfy` has a session that subscribes and then asks for a
snapshot, against a server that keeps one socket's messages in order; `CommandIds.dfy` the allocation
of command ids by concurrent senders; `HttpPoll.dfy` the poll loop with its lateness bound;
`ByteCodec.dfy` and `Lora.dfy` the LoRa end node: its integers, its field map, which uplinks pass and
what is read out of them, and a reading that is exactly the history of the accepted uplinks;
`LoraReadings.dfy` what its paths, declarations and values mean.

Values are datatypes, and objects whose methods change fields are classes whose methods are proved
against functions of the old state. Threads are program counters in a transition system; a run is a
sequence of actions, so a lemma about every sequence is a lemma about every interleaving.

## Where the code and its comments differ

The model follows the code.

- `api/decisions.py:81-83` and `storage_manager/storage_manager.py:82-85` say that the decision log
  and the decisions file hold the same decisions in the same order by construction. With several
  algorithm threads that holds only algorithm by algorithm: recording and fanning out are two steps,
  and a thread may be overtaken between them. `TwoAlgorithmsCanDisagree` is such a run, and
  `SameOrderExactlyWhen` says which runs agree.
- `parsers/obis.py:35-41` says that the lookahead keeps the optional checksum from weakening DSMR 4/5.
  It keeps a corrupted checksum from passing; but turning the last `)` of a line into `!`, one bit,
  ends the data there with no checksum to verify. `ForgedEndIsUnchecked` shows it for every telegram
  and every such line, `ForgedEndRejectedExactlyWhen` when the result is refused all the same.
- `api/decisions.py:65-68` says that a decision is stamped with the timestep the algorithm was stepping,
  even if the replay has moved on. When the replay is stopped in its wait it resets the clock under the
  `main()` that is still running, and what that `main()` decides from then on is stamped with the wall
  clock, though no step was late. `StoppedRunIsUnstamped` is such a run; `EveryDecisionIsStamped` says
  that with nothing late a decision misses its step's time if and only if the clock had been reset
  before it.
- `connectors/mqtt.py:271-280` says of an overflow that what sits at the head of a full queue has been
  superseded by everything behind it. Between the put that failed and the get, the dispatcher may empty
  the queue but for one payload; the get drops that one, though there is room for it and only the
  newest payload comes after it. `DroppedThoughThereIsRoom` is such a run; `OverflowCost` says that the
  dropped payload is superseded by a full queue of later ones if and only if the dispatcher took
  nothing in between.

## Model

| member | source | states |
|---|---|---|
| `Clock.JoinKeepsPending` | simulation/clock.py:133-144 | A join adds nobody to the pending set, keeps every mark, and a second join changes nothing |
| `Clock.AckSettles` | simulation/clock.py:168-174 | An acknowledgement takes its own name, and only it, out of the pending set; one for an older step never walks the mark back |
| `Clock.JoinAllKeeps` | simulation/clock.py:133-144 | Any number of joins keeps every earlier participant with its mark, and nothing else of the clock changes |
| `Clock.FailedConstructionIsInvisible` | main.py:220-227 | Whatever a constructor joined before it raised, withdrawing it leaves the barrier exactly as it was |
| `Clock.SimulationClock.constructor` | simulation/clock.py:49-58 | A new clock is not simulated, has no time, no step and no participant |
| `Clock.SimulationClock.DoStartSimulation` | simulation/clock.py:62-73 | Only declares the run simulated |
| `Clock.SimulationClock.DoReset` | simulation/clock.py:79-85 | Drops both clocks and the mode; keeps the generation and every participant's mark |
| `Clock.SimulationClock.DoSetEventTime` | simulation/clock.py:89-92 | Moves the event time only, to a moment or to none |
| `Clock.SimulationClock.DoPublishStep` | simulation/clock.py:94-100 | Commits the step's time under the next generation; pending is then exactly everybody whose mark was not beyond the old one |
| `Clock.SimulationClock.DoJoin` | simulation/clock.py:133-144 | Joins at the current generation unless already in; the pending set does not change |
| `Clock.SimulationClock.DoLeave` | simulation/clock.py:146-150 | Takes the name out of the participants, and out of the pending set if it was there |
| `Clock.SimulationClock.DoAck` | simulation/clock.py:168-174 | Raises the mark to the finished generation and never lowers it |
| `Clock.SimulationClock.PollStep` | simulation/clock.py:152-166 | Hands out a step only to a participant behind the current generation, and then the current one |
| `Clock.SimulationClock.Construct` | main.py:205-227 | A constructor that raises leaves the clock as it was, one that returns leaves its joins; on the object, with the withdrawal loop |
| `Clock.WaitForCompletion` | simulation/clock.py:102-125 | The wait ends at the first pass that finds nobody pending or a stop, or the deadline passed; a finished pass wins over the deadline; only a pass past the deadline names anybody, and then exactly the pending |
| `Backtest.GroupEnd` | connectors/pseudo.py:183-186 | A timestep is the maximal run of equal timestamps around an entry |
| `Backtest.SequentialAgree` | api/algorithm.py:107-118 | The sequential backtest of one algorithm is unique as far as two histories of it go |
| `Backtest.CompleteIsLongest` | api/algorithm.py:81-86 | Every sequential history is a prefix of the complete one, and the complete one is unique |
| `Backtest.SequentialStamps` | api/decisions.py:64-73 | In the sequential backtest each decision carries the time of the step being processed, and each look at the devices sees that step, whole and nothing beyond it |
| `LockstepInvariant.RunInv` | connectors/pseudo.py:143-196 | The invariant of the protocol holds in every reachable state, under every schedule |
| `LockstepInvariant.ApplyInv` | simulation/clock.py:94-178 | Each atomic step of the main, replay and algorithm threads keeps it |
| `LockstepInvariant.PendingFreezes` | connectors/pseudo.py:183-186 | While anybody is pending and nothing is late or stopped, the replay is in its wait and devices and clock are those of the published step |
| `LockstepInvariant.ActIsSequential` | api/algorithm.py:109-118 | On the devices and the clock of its own step, each act of a running main() is the act of the sequential backtest |
| `LockstepInvariant.RaiseOwn` | main.py:220-227 | A constructor that raises leaves as participants exactly the successfully constructed algorithms |
| `LockstepTheorems.FollowsBacktest` | connectors/pseudo.py:143-196 | Under every schedule with no late step and no stop, everything that has happened to an algorithm is what the sequential backtest does to it |
| `LockstepTheorems.ScheduleIndependence` | simulation/clock.py:35-41 | Two schedules cannot make one algorithm see or decide different things: one history is a prefix of the other |
| `LockstepTheorems.FinishedIsComplete` | connectors/pseudo.py:188-195 | When the replay is done, each algorithm that was not asked to stop has been through the whole backtest |
| `LockstepTheorems.BacktestIsDeterministic` | connectors/pseudo.py:198-209 | Two finished replays under any two schedules did exactly the same to every algorithm, decisions and timestamps included |
| `LockstepTheorems.NeverLateWithoutTimeout` | simulation/clock.py:110-119 | With no step timeout no step is ever late |
| `LockstepTheorems.ExactlyOnce` | api/algorithm.py:96-142 | While nothing is late, an algorithm has processed generations 1, 2, 3 and so on, each once and in order, through crashes, backoffs and restarts, and is never more than one behind |
| `LockstepTheorems.NeverTwice` | simulation/clock.py:152-174 | In every run, late ones included, the generations an algorithm processes strictly increase and none is beyond the current one |
| `LockstepTheorems.NothingGoesBack` | simulation/clock.py:168-174 | No step walks a mark back, rewinds the generation or forgets a processed step |
| `LockstepTheorems.NoOrphan` | supervisor/supervisor.py:143-171 | In every reachable state each participant is a constructed algorithm whose worker has neither retired nor finished, or the one being constructed |
| `LockstepTheorems.PendingShrinks` | simulation/clock.py:123-150 | Within one generation no step adds anybody to the pending set |
| `LockstepTheorems.PendingCanAnswer` | api/algorithm.py:145-159 | Whoever the replay waits for has a step, and each of its steps settles the wait, or an older step, or comes nearer to doing so, or is an act of its main() |
| `LockstepTheorems.NeverJams` | connectors/pseudo.py:198-207 | Until the replay is done, the replay has a step or somebody it waits for has one |
| `LockstepTheorems.NoWallClockAfterReplay` | api/algorithm.py:103-133 | An algorithm that has processed a replay step never takes the wall-clock branch, through any crashes and restarts and after the final reset |
| `LockstepTheorems.ReadingsAreStamped` | api/connector.py:101-173 | Under every schedule the stored readings are exactly the accepted entries delivered so far, in order, each stamped with its own time |
| `LockstepTheorems.TimestepsTileTheFile` | connectors/pseudo.py:144-186 | Played once, the timesteps are the file, with no entry left out or repeated |
| `LockstepTheorems.WholeFileIsReplayed` | connectors/pseudo.py:143-196 | A replay that was not stopped has delivered its whole file in order and stored exactly its accepted entries, late algorithms or not |
| `LockstepStamps.RunSteady` | api/algorithm.py:107-118 | Besides the invariant, every reachable state pairs each log with the steps taken, and, with nothing late, holds devices and step time still while anybody is pending |
| `LockstepStamps.EveryDecisionIsStamped` | api/decisions.py:64-73 | Under every schedule with nothing late, stopped or not: each look at the devices sees its own step exactly; each decision and each look at the clock carries its own step's time or none, and none if and only if the clock had been reset before it, which takes a stop |
| `LockstepStamps.StoppedRunIsUnstamped` | connectors/pseudo.py:188-191 | A run with nothing late that is stopped in its wait and leaves a decision without its step's time |
| `LockstepProgress.RanksRunDown` | api/algorithm.py:107-142 | While the replay waits, each step of the thread it waits for comes nearer to settling, and no step of any other thread takes it further away |
| `LockstepProgress.SettledWithin` | supervisor/supervisor.py:100-142 | In every interleaving, a name whose main() ends within A acts has settled the wait once its thread has made 2A + 8 steps, a crash, a restart and an older step in hand included |
| `LockstepProgress.EveryWaitEnds` | connectors/pseudo.py:198-207 | When everybody the replay waits for has made that many steps, nobody is pending, no step was late and the replay goes on |
| `LockstepLive.NobodyLeavesUnrun` | api/algorithm.py:107-143 | With a replay or without one, under every schedule: a thread that leaves, crashes, retires or is finished has called main(), unless its algorithm was asked to stop |
| `LockstepLive.LiveRuns` | api/algorithm.py:109-133 | Outside a replay, under every interleaving, five steps of an algorithm's thread are one call of main(): its steps are counted exactly, from wherever it is in its loop |
| `LockstepLive.LivePasses` | api/algorithm.py:131-133 | From the head of its loop, 5k steps of a live thread are exactly k calls of main() |
| `LockstepLive.NoReplayNoSteps` | api/algorithm.py:109-133 | In a program without a replay connector nobody is ever handed a timestep and nothing is delivered or stored by one |
| `LockstepLive.WhoIsLive` | api/algorithm.py:103-133 | Every algorithm without a timestep, in a program without a replay or after one, runs live until it is asked to stop or its main() ends otherwise than by returning |
| `LockstepLive.FinishedReplayIsReset` | connectors/pseudo.py:188-195 | Under every schedule a replay that came to its end by itself has left neither the simulated mode nor a time behind |
| `LockstepLive.SteppedThreadLeaves` | api/algorithm.py:121-130 | After that, an algorithm that had a step leaves from wherever it is in its loop within five steps of its own, without another main() |
| `LockstepLive.StopIsHonoured` | api/algorithm.py:107-133 | From the moment an algorithm is asked to stop its main() is called at most once more, and not at all unless its thread was just past its look at the flag; from the moment its supervisor is, it is not restarted |
| `LockstepLive.StoppedReplayEnds` | connectors/pseudo.py:143-196 | A stopped replay delivers at most the entry it has in hand, counts nobody late, and is over within eight of its own steps |
| `LockstepLive.UnwantedFinishes` | supervisor/supervisor.py:95-171 | Under every schedule an algorithm asked to stop together with its supervisor, whose main() ends within A acts, is finished within A + 8 steps of its own thread |
| `PseudoConnector.ScriptIsRun` | connectors/pseudo.py:143-196 | A script of the replay loop in which nobody else moves is a run of the lockstep model, from any of its states |
| `PseudoConnector.ActionsAreMoves` | connectors/pseudo.py:143-196 | Every action of the lockstep model, of whatever thread, is to the replay thread a step of its own, a stop, an expiry, or a change of the participants and nothing else |
| `PseudoConnector.PseudoConnector.IsStopping` | connectors/pseudo.py:143-153 | A look at the stop event changes nothing but what the thread knows |
| `PseudoConnector.PseudoConnector.AwaitAlgorithms` | connectors/pseudo.py:198-213 | The wait ends at the first look that finds everybody beyond the step, the stop event set, or the deadline past, and at none before; a late step is counted exactly when it was the deadline |
| `PseudoConnector.PseudoConnector.DeliverEntry` | api/connector.py:101-173 | An entry is delivered once, and stored under the event time if and only if the device accepts it |
| `PseudoConnector.PseudoConnector.CommitEntry` | connectors/pseudo.py:183-186 | A timestep is committed, with its time and under the next generation, and waited for exactly when the next entry's time differs |
| `PseudoConnector.PseudoConnector.Dispatch` | connectors/pseudo.py:159-186 | An entry moves the event time, is delivered once, stored if accepted, and ends its timestep exactly when the next one's time differs |
| `PseudoConnector.PseudoConnector.Pass` | connectors/pseudo.py:144-186 | A pass delivers a prefix of the file in order, all of it unless stopped, commits exactly the timesteps that end in it, and stores exactly the readings of what it delivered |
| `PseudoConnector.PseudoConnector.Start` | connectors/pseudo.py:124-196 | Whatever the other threads and the deadlines do and whenever the stop comes, the loop has taken exactly a run of the model's steps to its end, and stored exactly the readings of what it delivered; not stopped, it was not looping, has delivered its whole file, committed each of its timesteps once, and reset the clock |
| `Algorithm.ScriptIsRun` | api/algorithm.py:74-159 | A script of an algorithm's loop in which nobody else moves is a run of the lockstep model, from any of its states |
| `Algorithm.ActionsAreMoves` | api/algorithm.py:74-159 | Every action of the model, of whatever thread but the supervisor, is to an algorithm's thread a step of its own, a stop, or a change of clock and devices that leaves its mark alone |
| `Algorithm.Algorithm.Enter` | api/algorithm.py:96-107 | A restarted loop is still a participant and takes over whether it has stepped, once |
| `Algorithm.Algorithm.Poll` | api/algorithm.py:109-111 | An iteration is a step exactly when the clock then met is simulated, has a step, and its generation is beyond the thread's own mark; then it is that generation, and recorded as processed |
| `Algorithm.Algorithm.RunMain` | api/algorithm.py:161-184 | The log grows by the acts of main(), each on what its own look shows, up to the one that ends it; the thread's own mark does not move |
| `Algorithm.Algorithm.Acknowledge` | api/algorithm.py:112-118 | The mark becomes the finished generation unless it was beyond it, however main() ended; only a raise is remembered |
| `Algorithm.Algorithm.ProcessStep` | api/algorithm.py:110-118 | However main() ends, its step is acknowledged, and exactly that; a raise is remembered for the restart |
| `Algorithm.Algorithm.RunLive` | api/algorithm.py:131-133 | main() is called once on the wall clock; returning goes back to the head of the loop, a raise is no timestep's |
| `Algorithm.Algorithm.NoStep` | api/algorithm.py:119-133 | By the clock then met: simulated, it goes round; else an algorithm that has stepped leaves without a call of main(); else main() is called exactly once and its end decides |
| `Algorithm.Algorithm.Iterate` | api/algorithm.py:108-133 | One pass of the loop: a live pass whose main() returns is one call and goes on; one that has stepped never runs live; a crash remembers exactly whether it had stepped |
| `Algorithm.Algorithm.Loop` | api/algorithm.py:74-143 | Whatever the rest of the system does and whenever the stop comes, the loop has taken exactly a run of the model's steps: out of the barrier when it returns or exits, still a participant when it raises. With no replay main() is called once for each time the stop flag is found clear; a thread that had stepped before its crash never runs live again |
| `Algorithm.Algorithm.Retire` | api/algorithm.py:145-159 | Retiring leaves the barrier and forgets the crash |
| `Supervisor.IntOption` | api/options.py:27-42 | An integer option is its value, or the default when it is missing, unusable or below zero |
| `Supervisor.BoolOption` | api/options.py:71-83 | A switch is its value, or the default when it is missing or unusable |
| `Supervisor.FloatOption` | api/options.py:45-68 | Likewise for a number; the result is never negative |
| `Supervisor.FromRuntime` | supervisor/supervisor.py:23-40 | Each part of the policy is its own setting, or its own default (enabled, 5, 1 second, 60 seconds) when that is missing, unusable or below zero |
| `Supervisor.SupervisedWorker.constructor` | supervisor/supervisor.py:67-90 | A new worker has no crash, no restart, and has neither finished nor completed |
| `Supervisor.SupervisedWorker.Run` | supervisor/supervisor.py:95-171 | The target runs until a run does not raise, a stop is seen after it or in its backoff, restarts are disabled, or max_restarts restarts are spent, and not a run less; each verdict is given exactly for its cause; retire comes once, after the last run and before finished; it completed cleanly exactly when the last run returned; crashes less restarts is 0 on a clean return, an unwinding or a stop in backoff, else 1 |
| `Supervisor.BackoffDoubles` | supervisor/supervisor.py:137-142 | Backoff i is the configured one doubled i times and capped, for i above 0 |
| `Supervisor.RestartsBackOff` | supervisor/supervisor.py:95-142 | Under every configuration a worker restarted n times has called its target and waited in turn, first the configured backoff, then each time the doubled and capped one |
| `Supervisor.StopAll` | supervisor/supervisor.py:231-243 | Everybody is asked before anybody is waited for; it returns within the shared grace period and reports exactly the workers that outlive it, whatever their order |
| `Crc.Crc16Arc` | parsers/obis.py:183-192 | The nested loops compute the register function the theorems are about |
| `Crc.FeedByteIsDivide` | parsers/obis.py:185-191 | Feeding a byte into the register is dividing by eight more bits, lowest first |
| `Crc.DivideIsRemainder` | parsers/obis.py:183-192 | Bit-serial division in a register is textbook long division |
| `Crc.CrcIsRemainder` | parsers/obis.py:177-192 | The checksum of any data is its remainder modulo x^16 + x^15 + x^2 + 1 over GF(2) |
| `Crc.CrcIsLinear` | parsers/obis.py:177-192 | At equal length the checksum of the difference is the difference of the checksums |
| `Crc.SameCrcExactlyWhen` | parsers/obis.py:177-192 | Two messages of one length share a checksum if and only if their difference leaves no remainder |
| `Crc.UndetectedIsDivisible` | parsers/obis.py:177-192 | An undetected corruption is a multiple of the generator |
| `Crc.BurstIsDetected` | parsers/obis.py:177-192 | Any non-zero difference within 16 consecutive bits changes the checksum, at every length |
| `Crc.OddIsDetected` | parsers/obis.py:177-192 | Any difference of odd weight changes the checksum |
| `Crc.ResidueIsZero` | parsers/obis.py:177-192 | Appending the checksum low byte first gives a message whose checksum is 0 |
| `Crc.CheckValue` | parsers/obis.py:177-192 | The checksum of the nine digits 123456789 is 0xBB3D, the published check value of CRC-16/ARC |
| `Obis.ParseRecord` | parsers/obis.py:98-130 | The loop that consumes value blocks off the rest of a line yields the record the grammar gives, or nothing when something is left over |
| `Obis.ParseLines` | parsers/obis.py:54-96 | The loop over the lines keeps exactly the readable ones, in order |
| `Obis.Parse` | parsers/obis.py:54-96 | A telegram is refused for its frame, its checksum or having no readable line, and is otherwise its header and its records |
| `Obis.MatchFrame` | parsers/obis.py:42 | A frame's model is the three characters after the slash, its device the rest of that line after one more; its data ends at the first exclamation mark after the header, and the checksum is what directly follows it |
| `Telegrams.RecordRoundTrip` | parsers/obis.py:98-130 | Parsing a printed record gives it back: the five words of its reference in their places, as many blocks, each with its value and with a unit exactly if it has one, each text converted |
| `Telegrams.PrintedIsParsed` | examples/generate.py:107-116 | Parsing a printed telegram gives its header and the records of its readable lines, and refuses only a telegram without one |
| `Telegrams.TelegramRoundTrip` | examples/generate.py:107-116 | Any list of well-formed records, printed under any header with its checksum, parses back to exactly those records |
| `Telegrams.NoiseIsIgnored` | parsers/obis.py:29-33 | Unreadable lines inserted anywhere do not change the records |
| `Telegrams.LineIsolation` | parsers/obis.py:29-33 | Inserting unreadable lines, checksum recomputed, changes nothing of the parsed telegram but its checksum |
| `Telegrams.DetectableChangesCrc` | parsers/obis.py:177-192 | A burst of at most 16 bits or an odd number of flipped bits changes the checksum |
| `Telegrams.CorruptionIsRejected` | parsers/obis.py:54-74 | An accepted, checksummed telegram is refused after any such corruption between its slash and its exclamation mark that keeps the framing |
| `Telegrams.FramingSurvives` | parsers/obis.py:42 | A corruption that leaves a line end in the header and no earlier exclamation mark keeps the framing |
| `Telegrams.ForgedEndIsUnchecked` | parsers/obis.py:35-42 | Turning the last closing parenthesis of a line into an exclamation mark ends the data there and leaves no checksum to verify |
| `Telegrams.ForgedEndIsOneBit` | parsers/obis.py:42 | On the wire the two telegrams differ in one byte, by one bit |
| `Telegrams.ForgedEndRejectedExactlyWhen` | parsers/obis.py:54-96 | Such a corruption is refused if and only if no line before it is readable |
| `TelegramGrammar.HexDigitIsItsPlace` | parsers/obis.py:63 | A digit of the given checksum is its place among the sixteen, in either case |
| `TelegramGrammar.SpelledIsParsed` | parsers/obis.py:98-130 | Whatever the record grammar spells, with any separators after the blocks, is read as what was spelled |
| `TelegramGrammar.ParsedIsSpelled` | parsers/obis.py:98-130 | Whatever line is read as a record was spelled by the grammar from the texts it was read as |
| `TelegramGrammar.RecordExactlyWhen` | parsers/obis.py:11-21 | A line is a record if and only if the grammar spells it |
| `TelegramGrammar.SplitTogether` | parsers/obis.py:45 | Splitting undoes putting lines together, whichever of the two line ends stand between them |
| `TelegramGrammar.TogetherSplit` | parsers/obis.py:45 | Every text is the lines it is split into, put together with its own line ends |
| `TelegramGrammar.FrameExactlyWhen` | parsers/obis.py:42 | The frame pattern matches exactly the texts of its form, and captures exactly their model, device, data and checksum |
| `TelegramGrammar.ParsedAsFramed` | parsers/obis.py:54-96 | A text of that form is refused for a wrong checksum or for having no record, and is otherwise its model, its device, its records and its checksum |
| `TelegramGrammar.UnframedIsRejected` | parsers/obis.py:54-58 | Any other text is refused |
| `MqttDispatch.BoundedQueue.PutNowait` | connectors/mqtt.py:227-231 | Appends unless the queue is full, and says which |
| `MqttDispatch.BoundedQueue.GetNowait` | connectors/mqtt.py:288-291 | Takes the oldest unless the queue is empty, and says which |
| `MqttDispatch.BoundedQueue.Enqueue` | connectors/mqtt.py:195-232 | Left alone, the newest payload always gets in and only a full queue pays for it, with its oldest |
| `MqttDispatch.BoundedQueue.Release` | connectors/mqtt.py:370-385 | Left alone, a release abandons everything queued and leaves the sentinel by itself |
| `MqttInvariant.RunInv` | connectors/mqtt.py:195-385 | Order, bound, conservation and waking hold in every reachable state of the interleaved threads |
| `MqttInvariant.DeliveriesInOrder` | connectors/mqtt.py:320-346 | Delivered, in hand and queued payloads form an order-preserving subsequence of the arrivals |
| `MqttInvariant.EveryArrivalIsAccountedFor` | connectors/mqtt.py:195-346 | Arrivals are exactly the delivered, in hand, queued, on their way in, dropped, abandoned and refused, and the queue keeps its bound |
| `MqttInvariant.ArrivalsOnce` | connectors/mqtt.py:187-193 | Each arrival counts once in that sum |
| `MqttInvariant.OverflowDropsOldest` | connectors/mqtt.py:271-307 | Every overflow drop is older than everything queued or on its way in, and the newest payload is never the one dropped |
| `MqttInvariant.ShutdownLosesNoWakeUp` | connectors/mqtt.py:338-385 | Once a release has covered a dispatcher, it is about to leave, or has something to wake on, or some thread is certain to put something, in every interleaving |
| `MqttInvariant.PutIsBySomebody` | connectors/mqtt.py:288-299 | Whenever a put is coming some thread is about to make it and can go on |
| `MqttInvariant.PutComes` | connectors/mqtt.py:288-299 | In every interleaving, by the time that thread has made two steps the dispatcher has had something to wake on, or is gone |
| `MqttInvariant.ReleaseCoversEverybody` | connectors/mqtt.py:359-385 | After stop() or the end of start() the current dispatcher has been covered |
| `MqttInvariant.WakeableLeaves` | connectors/mqtt.py:338-346 | A covered dispatcher with nothing on its way in leaves within three of its own steps when stopping, four otherwise |
| `MqttDelivery.LossNeedsACause` | connectors/mqtt.py:195-385 | A payload is refused only after a stop(), and abandoned only after a stop(), the return of the network loop, or the death of a dispatcher |
| `MqttDelivery.RefusedExactlyWhen` | connectors/mqtt.py:220-226 | A payload is refused if and only if stop() was called before its look at the flag |
| `MqttDelivery.NothingElseIsLost` | connectors/mqtt.py:195-346 | In a run with none of these, every arrival is delivered, in hand, queued, on its way in or dropped by the overflow, and only one of these |
| `MqttDelivery.FewAreNotDropped` | connectors/mqtt.py:227-291 | In such a run the overflow drops nothing unless a whole queue of other arrivals is delivered or kept, so of at most 64 arrivals it drops none |
| `MqttDelivery.DeliveredWithin` | connectors/mqtt.py:320-346 | In every interleaving of such a run a payload that is queued or in hand is delivered within 3 * 64 + 1 steps of the dispatch thread, unless the overflow drops it before |
| `MqttDelivery.EveryArrivalIsDelivered` | connectors/mqtt.py:195-346 | And every arrival, after five steps of the network thread and then those of the dispatch thread; of at most 64 arrivals each is delivered |
| `MqttDelivery.NetworkThreadMoves` | connectors/mqtt.py:155-164 | Without a stop the network thread listens again within five steps of its own, also after the network loop has raised; it never waits for the dispatch thread |
| `MqttDelivery.UninterruptedArrival` | connectors/mqtt.py:195-307 | The steps of the network thread alone do to the queue what Enqueue does, and replace a dead dispatcher first |
| `MqttDelivery.UninterruptedRelease` | connectors/mqtt.py:359-385 | The steps of stop() alone do to the queue what Release does, and cover the dispatcher |
| `MqttDelivery.OverflowCost` | connectors/mqtt.py:227-299 | An overflow drops the payload then at the head, and the later payloads kept are 64 less those the dispatcher took since the failed put: a full queue if and only if it took none |
| `MqttDelivery.DroppedThoughThereIsRoom` | connectors/mqtt.py:271-291 | An undisturbed run that drops a payload with 63 places free and a single later arrival |
| `Decisions.DecisionLog.constructor` | api/decisions.py:100-109 | An empty ring of at least one place |
| `Decisions.DecisionLog.Record` | api/decisions.py:111-129 | Numbers the decision next, appends it to the history and evicts at most the oldest retained one |
| `Decisions.DecisionLog.GetPage` | api/decisions.py:131-187 | A page is the contiguous stretch of the whole history right after the cursor and what has been evicted since, as long as its limit, the capacity and the history let it be; total, retained, oldest and missed are those of the history; a limit of 0 delivers nothing and moves the cursor to the head |
| `Decisions.AppendKeeps` | api/decisions.py:119-129 | The ring always holds the newest decisions of the history, as many as fit, numbered from 1 |
| `Decisions.NewerOfRing` | api/decisions.py:173 | The retained records above a cursor are the history above it less what was evicted |
| `Decisions.PageIsNextStretch` | api/decisions.py:152-187 | next_cursor is the clamped cursor plus missed plus delivered; decisions are that stretch, oldest first; has_more if and only if decisions remain |
| `Decisions.CursorAccounting` | api/decisions.py:131-187 | Over any interleaving of writes and polls by a client that feeds next_cursor back, nothing is delivered twice, deliveries come in order, and every number up to the cursor is delivered once or missed once |
| `Decisions.NoMoreMeansCaughtUp` | api/decisions.py:148-150 | A page has no more if and only if its cursor is the head |
| `DecisionFunnel.RunInv` | storage_manager/storage_manager.py:91-95 | In every interleaving each recorded decision is in the file once or in its thread's hand |
| `DecisionFunnel.LogIsWhatWasRecorded` | api/decisions.py:111-129 | In every interleaving the log is the decisions recorded, in that order, numbered from 1 |
| `DecisionFunnel.AllAreWritten` | storage_manager/storage_manager.py:91-95 | Once nobody has a decision in hand the file has every one of the log, once |
| `DecisionFunnel.AgreePerAlgorithm` | storage_manager/storage_manager.py:91-95 | Algorithm by algorithm, log and file hold the same decisions in the same order, but for the one in hand |
| `DecisionFunnel.FanOutKeepsOrder` | storage_manager/storage_manager.py:91-95 | A fan-out leaves the file in the log's order if and only if it was, and the decision is the oldest outstanding one |
| `DecisionFunnel.SameOrderExactlyWhen` | storage_manager/storage_manager.py:82-95 | After any run the file is in the log's order if and only if no fan-out overtook another |
| `DecisionFunnel.TwoAlgorithmsCanDisagree` | api/decisions.py:81-83 | A run of two algorithms after which log and file hold the same decisions in different orders |
| `HomeAssistant.Connector.constructor` | connectors/home_assistant.py:53-89 | A new connector has dispatched nothing, awaits no snapshot and has written nothing |
| `HomeAssistant.Connector.Connect` | connectors/home_assistant.py:178-180 | Opens a socket and nothing else: ids and what was dispatched carry over from session to session |
| `HomeAssistant.Connector.SendCommand` | connectors/home_assistant.py:383-392 | Without a socket it raises and takes no id; otherwise each command takes the next id, a failed write uses it up all the same, and the ids written strictly increase |
| `HomeAssistant.Connector.Subscribe` | connectors/home_assistant.py:210-219 | Writes the subscription and then the snapshot request, under consecutive ids, and awaits the answer to the second; when a write fails it awaits nothing new |
| `HomeAssistant.Connector.Teardown` | connectors/home_assistant.py:405-410 | The next session awaits no old snapshot; what was dispatched stays |
| `HomeAssistant.Connector.HandleFrame` | connectors/home_assistant.py:249-320 | A change of a watched entity replaces its state and a removal nothing; the awaited result ends the wait and gives each watched entity it lists the last state it lists for it; no other frame changes anything |
| `HomeAssistant.DispatchListing` | connectors/home_assistant.py:294-296 | Dispatching a full listing makes every watched entity in it up to date |
| `HomeAssistant.RunInv` | connectors/home_assistant.py:210-320 | From the start of any session, the subscription is never behind the snapshot request, and what will have been dispatched once everything in flight is handled is the server's present state |
| `HomeAssistant.SubscribeThenSnapshotIsLossless` | connectors/home_assistant.py:210-219 | In every session, after a reconnect too, and in every interleaving, once the snapshot and all frames are handled, the last state dispatched for each watched entity still present is its present state |
| `HomeAssistant.SessionCompletes` | connectors/home_assistant.py:210-320 | Left alone, every session comes to that point: both requests written, answered and handled, and every watched entity at its present state |
| `HomeAssistant.UnwatchedAreLeft` | connectors/home_assistant.py:298-308 | In every run an entity nobody watches keeps what it had |
| `HomeAssistant.SnapshotFirstLosesAChange` | connectors/home_assistant.py:213-216 | The reverse order is not lossless: a run in which everything was answered and handled and the connector holds a state the server no longer has |
| `CommandIds.IdsIncreaseOnTheWire` | connectors/home_assistant.py:383-392 | Under any number of concurrent senders, failing writes included, the ids on the wire strictly increase |
| `CommandIds.WritesReachTheWire` | connectors/home_assistant.py:383-392 | Each allocation takes the next id from 1 on, and there is one id on the wire for each write that did not fail |
| `CommandIds.SeparateLocksReorder` | connectors/home_assistant.py:383-392 | With the allocation and the write locked separately two senders can reverse their ids |
| `HttpPoll.HttpApiConnector.constructor` | connectors/http_api.py:146-165 | One task a device, and no session |
| `HttpPoll.HttpApiConnector.Start` | connectors/http_api.py:168-202 | However long polls last within their limit, and whenever the stop comes or a poll raises: every poll begins no earlier than due and no later than (2n - 2) polls after the due time or the beginning, every sleep ends at the first due time, after a minute or on the stop, the rounds are exactly as many as the stop allows, the tasks hold what the trace says, and no session is left open |
| `HttpPoll.HttpApiConnector.Pass` | connectors/http_api.py:179-190 | One pass adds one round: a poll of each due task and a sleep; a raising poll ends it |
| `HttpPoll.HttpApiConnector.Sweep` | connectors/http_api.py:180-186 | A sweep polls exactly the tasks that were due when it began, in order, as far as it got before a stop or a raising poll |
| `HttpPoll.RoundsExtend` | connectors/http_api.py:179-190 | The stop event is looked at once a pass and once a task, so every round but perhaps the last goes through all tasks |
| `HttpPoll.HttpApiConnector.Rest` | connectors/http_api.py:189-190 | A sleep passes no due time and at most the maximum, and unless cut short ends with a device due or at the maximum |
| `HttpPoll.SleepsAreBounded` | connectors/http_api.py:187-190 | In a run on time every sleep lasts until the first due time but no longer than sixty seconds, unless the stop ends it |
| `HttpPoll.HttpApiConnector.EarliestDue` | connectors/http_api.py:189 | The least of the tasks' due times |
| `HttpPoll.SweepStarvesNobody` | connectors/http_api.py:179-186 | At any point of a sweep no device is overdue by more than (2n - 2) polls |
| `HttpPoll.NapKeeps` | connectors/http_api.py:187-190 | After a whole sweep and its sleep no device is overdue by more than n - 1 polls |
| `HttpPoll.IntervalIsKept` | connectors/http_api.py:33-35 | Any two polls of one device are at least its interval apart, end to start |
| `HttpPoll.EveryDeviceIsPolled` | connectors/http_api.py:179-190 | A run that lasts longer than that past a device's due time has polled the device |
| `ByteCodec.DecodeOfEncode` | devices/lora.py:505 | Reading back a written integer gives it back, over its full range, for every length, byte order and sign |
| `ByteCodec.EncodeOfDecode` | devices/lora.py:505 | Writing what was read gives the same bytes, and every chunk reads as a number of its range |
| `ByteCodec.LittleIsBigReversed` | devices/lora.py:505 | Little-endian is big-endian on the reversed bytes |
| `ByteCodec.FirstByteWeighs` | devices/lora.py:505 | In big-endian order the first byte is the most significant one, in little-endian order the least |
| `ByteCodec.SignedIsUnsignedModulo` | devices/lora.py:505 | The signed reading is the unsigned one modulo 256 to the length |
| `ByteCodec.ZeroExactlyWhen` | devices/lora.py:509-510 | A number is zero if and only if all its bytes are |
| `ByteCodec.BitIsPhysical` | devices/lora.py:506-508 | A bit below 8 times the length is that physical bit of the payload whatever the sign; a higher one is the sign |
| `Lora.AnyFindsTheFirst` | devices/lora.py:152-170 | The any-element step of a path picks the first element that yields a value, and fails only when none does |
| `Lora.BuildSpecs` | devices/lora.py:252-335 | The loop with its set of seen names builds the field map, in declaration order, and the names of the fields with the energy role |
| `Lora.FirstUsableOfEachName` | devices/lora.py:267-328 | The field map has every usable name once, from its first usable entry, so a malformed entry costs only itself, also when its name comes again |
| `Lora.NumberRoundTrip` | devices/lora.py:492-511 | What a node writes at an integer field's place is what the device reads there, scaled as declared |
| `Lora.BooleanIsAnyByte` | devices/lora.py:509-510 | A boolean field without a bit is true exactly when one of its bytes is not zero |
| `Lora.OutsideIsNothing` | devices/lora.py:492-497 | A field that is not wholly inside the payload reads as nothing, whatever its type |
| `Lora.FlagIsPhysicalBit` | devices/lora.py:506-508 | A flag field reads one physical bit of its bytes |
| `Lora.ReadsOnlyItsBytes` | devices/lora.py:492-498 | Nothing outside a field's own bytes has any influence on it |
| `Lora.PassesExactlyWhen` | devices/lora.py:352-393 | Which uplinks pass every check, which let an exception out, and what is read out of them, from the document and the setup alone |
| `Lora.AcceptedExactlyWhen` | devices/lora.py:363-425 | An uplink becomes a reading if and only if it passes, some field in it decodes and none raises, all from the document |
| `Lora.MergedFields` | devices/lora.py:408-441 | Each header part comes from its own path; a field in the uplink gets what it decodes to, the uplink's port and counter and its unit; another keeps its entry |
| `Lora.HistoryStep` | devices/lora.py:395-441 | Merging an accepted uplink, or ignoring a refused one, keeps the reading equal to its history |
| `Lora.ToldByTheLast` | devices/lora.py:399-420 | A field's history is the entry of the last accepted uplink eligible for it |
| `Lora.UntoldHoldsNothing` | devices/lora.py:399-420 | And nothing when there is no such uplink |
| `LoraReadings.HeldByTheLast` | devices/lora.py:399-420 | A declared field holds what the last uplink that became a reading with the field in it gave it, from that document |
| `LoraReadings.WalkIsAChain` | devices/lora.py:152-170 | What a path yields is at the end of a chain of members and elements the segments name, negative indices counting from the end |
| `LoraReadings.ChainIsTheWalk` | devices/lora.py:152-170 | Without any-element segments that chain is the only one: its end is what the path yields |
| `LoraReadings.DeclaredInFull` | devices/lora.py:314-326 | Every field that can be declared is declared by the entry that gives each of its parts |
| `LoraReadings.WhatAnEntryDeclares` | devices/lora.py:267-326 | An entry is usable if and only if it has a name and a path or a place of positive length; a path wins over an offset and a bit over a scale; what is left out is an unsigned number of two bytes in the node's order |
| `LoraReadings.EnergyIsDeclared` | devices/lora.py:327-328 | The energy names are the names of the fields declared with that role |
| `LoraReadings.OtherFields` | devices/lora.py:473-511 | Texts, floats of their own width, fields of the decoded part, and negative bits |
| `LoraReadings.RawIsItsBytes` | devices/lora.py:499-500 | A raw field is the list of its bytes |
| `LoraReadings.OnlyNumbersAreScaled` | devices/lora.py:514-525 | Only a number is scaled, and only where a scale is declared; one too large for a float raises |
| `Lora.LoRa.constructor` | devices/lora.py:219-229 | A new device holds nothing, which is its empty history |
| `Lora.LoRa.Receive` | devices/lora.py:352-441 | An uplink is taken if and only if it is an object that names no other node, its port and counter can be converted, its payload can be decoded, fits and is not empty beside an empty decoded part, some field in it decodes and none raises; the header is then kept part by part from its own path, each field without a port or on the uplink's port is replaced by what it decodes to, with that port, that counter and its unit, and the others are carried over; after any uplinks the reading is its history |
| `Lora.LoRa.Decode` | devices/lora.py:395-420 | The loop over the fields replaces the eligible ones, drops those that do not decode, carries the rest, and says whether anything was fresh |

## Left out

- CorruptionIsRejected: states detection for corruptions that keep the framing; one that makes an
  earlier exclamation mark is not covered by the checksum, as ForgedEndIsUnchecked shows.
- SubscribeThenSnapshotIsLossless: speaks of a session in which the server answers both requests; the
  authentication handshake, pings and the bookkeeping of pending commands are not part of this model.
- NumberRoundTrip: the value of a scaled number, of a float and of a text is kept as an opaque token, so
  rounding and text decoding are not modelled.
- FollowsBacktest: takes an algorithm as a deterministic function of what happened to it; one that
  reads the wall clock, random numbers or the network is outside the promise.
- Interleavings are quantified over transition systems on values. The replay and algorithm loops, the
  clock, the supervised worker and the queue are also methods on objects, tied to those systems or to
  their functions; the loops of the MQTT threads and the supervisor's share of the lockstep steps are
  program counters only, which does not capture updates in place or aliasing.
- A step timeout that is zero or negative, which disables lockstep; several replay connectors at
  once; and the early returns of the replay on a missing or empty file, which never reset the clock.
- Sorting the replay entries: no theorem needs the file to be in order. Comparing naive with aware
  timestamps, which Python finds unequal, is not modelled; timestamps are integer instants.
- The wait for required devices is a finite delay that does not raise; no progress is claimed when it
  has no timeout.
- A device or a constructor that raises something other than an Exception into the connector, and a
  replay thread that itself crashes; in the lockstep model SystemExit stands for every exit of
  main() that is not restarted.
- Whether a control command is accepted: in the lockstep model each decision is one that was.
- Configuration, schema validation, plugin loading and reflection; only that algorithm names are
  unique is assumed.
- Logging, warn-once bookkeeping and counters that only feed it.
- The regular expression engine: the four telegram patterns are direct matchers, with word
  characters as in ASCII; string_to_type is any function of the text.
- The epoch of the decision log and the wall clock behind its timestamps; a timestamp is a parameter.
- A storage backend that fails during the fan-out; there is one file and its writes succeed.
- JSON text, base64 and integer conversion in the LoRa device are parameters; network server profiles
  beyond their paths, and metrics, are not part of this model.
- Sockets, HTTP sessions and commands, Modbus, serial, InfluxDB and CSV output, the REST API, and the
  remaining devices and connectors: they would add foreign calls or easy members only.
- Time passes only in polls and sleeps of the HTTP loop; the few instructions between take none.
