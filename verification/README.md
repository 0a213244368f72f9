# drones-racing in Dafny

A model of the race core of drones-racing, with proofs about it. The
repository is a small TypeScript system with three parts:

- a NestJS server that keeps four drones and runs a timed race for each
  one. A race goes through ten stops, split into nine legs of random
  length;
- a live stream (server-sent events) of a drone's progress;
- two Angular front-ends, `apps/web` and `web`. Each folds the stream into
  a list of view models and derives a leaderboard and a winner from it.

The model is functional. Each server step (`launch`, one timer firing,
opening a stream) is a pure function from one explicit service state to
the next. The clock reading and the random draws are parameters.

Modules, one per component of the source:

| module | file | models |
|---|---|---|
| `Common` | common.dfy | optional values, the `NotFound` error, the drone status, the event payload |
| `Registry` | registry.dfy | the race constants, the drone record, the fixed catalog d1..d4, `getById` |
| `Legs` | legs.dfy | `randomInt` and `randomLegs`: the total time and its split into legs |
| `EventBus` | bus.dfy | the per-drone listener sets, `on` with its unsubscribe handle, `emit` |
| `Simulation` | simulation.dfy | `launch`, the leg timer (`runLeg`, `scheduleTimer`, `stopTimer`), the state invariant |
| `Race` | race.dfy | whole runs: a launch followed by the ten firings of its timer |
| `Controller` | controller.dfy | the stream endpoint: snapshot first, then verbatim forwarding, and teardown |
| `Lists` | lists.dfy | `filter`, `every`, `findIndex`, and the stable `sort` with a comparator |
| `Names` | names.dfy | the name order used as the leaderboard's tie-break |
| `Views` | views.dfy | the client view model, `updateDrone`, ranking, race duration |
| `AppsWebClient` | appsweb.dfy | the `apps/web` client: `toVM`, `normalizeStatus`, `onmessage`, leaderboard, `allFinished`, `winnerId` |
| `WebClient` | webclient.dfy | the `web` client: the `loadList` mapping, `onmessage`, the two-part leaderboard, `allFinished`, `winnerId`, `colorFor` |
| `Session` | session.dfy | the server and the `apps/web` client together over the rest of a race, for a client that connects before the launch's first firing or while the drone is already racing |

## How things are represented

**Service state.** The state is `Service(drones, timers, bus)`. It holds
one timer slot per drone, in catalog order.

**Timers.** A pending timer stands for the closure `runLeg(legIdx)` that
waits for `delay`. It is `Timer(legIdx, delay, Run(legs, nextStop))`,
which carries the environment the closure captured. `Fire(s, i, now)`
runs that callback. Callbacks run to completion one at a time, so each
`Launch`, `Fire` and `Stream` is one atomic step.

**Listeners.** A listener is named by a token. The bus records, per
token, the events its callback was called with (`received`). It also
records, per drone, every event emitted (`published`). The stream's
promises are stated over these two logs.

**Randomness.**
- `randomInt` draws an offset in `[0, span)`.
- `randomLegs` draws one weight per leg, a uniform draw shifted up by 0.2, so each lies in `[0.2, 1.2)`.
- Weights are exact reals, so each leg's rounded-down share of the total has no rounding error.

**The invariant.** The central invariant is `Simulation.Inv`. Every
reachable state keeps it:
- each drone's stop stays in 1..10;
- exactly the running drones have a pending timer;
- that timer agrees with the stop reached and the legs drawn;
- a finished drone sits at stop 10 with both timestamps;
- the last published event agrees with the drone.

**Behaviour the model follows as the code has it:**
- `launch` on a running drone returns that drone and changes nothing: no
  new total, no event, no timer reset
  (api/src/modules/drones/drones.service.ts:133-135; see
  `LaunchWhileRunning`).
- The service test calls `getWinner()`
  (api/src/modules/drones/drones.service.spec.ts:63-88), but
  api/src/modules/drones/drones.service.ts defines no such method. The
  winner is derived only in the two clients, as `winnerId`.
- The component test of the `web` client expects idle drones to be
  missing from the leaderboard. It also expects finished drones without
  `startedAt` to be ranked. The component does neither: the drones still
  racing are appended after the finished ones, and a finished drone
  missing a timestamp is in neither part (`WebClient.LeaderboardContents`).

## Model

| member | source | states |
|---|---|---|
| Registry.CatalogFacts | api/src/modules/drones/drones.service.ts:39-88 | the registry is d1, d2, d3, d4 in that order, all idle at stop 1, with distinct ids; the listener map has exactly the same keys |
| Registry.GetById | api/src/modules/drones/drones.service.ts:102-106 | fails with `NotFound(id)` exactly when no drone has that id; otherwise returns a drone of the registry with that id |
| Registry.Find | api/src/modules/drones/drones.service.ts:103 | the map lookup finds the first slot holding the id, and finds nothing exactly when no slot holds it |
| Legs.RandomInt | api/src/modules/drones/drones.service.ts:210-213 | for every offset in `[0, max - min + 1)` the drawn value lies in `[min, max]` |
| Legs.RandomIntCovers | api/src/modules/drones/drones.service.ts:210-213 | every value of `[min, max]` is drawn by some offset, so the range is covered exactly |
| Legs.Shortfall | api/src/modules/drones/drones.service.ts:217-222 | with weights in `[0.2, 1.2)`, flooring under-allocates by at least 0 and by less than one unit per leg, and no floor is negative |
| Legs.Adjust | api/src/modules/drones/drones.service.ts:222-226 | the correction keeps the number of legs, moves only the first `abs(diff)` legs, each by exactly one in the sign of `diff`, and leaves the rest unchanged |
| Legs.AdjustSum | api/src/modules/drones/drones.service.ts:222-226 | the correction moves the total by `min(abs(diff), legs)` units in the direction of `diff` |
| Legs.AdjustExact | api/src/modules/drones/drones.service.ts:222-226 | for any non-negative floors that fall short of `total` by 0..legs units, the corrected legs add up to `total` exactly and stay non-negative |
| Legs.PartitionExact | api/src/modules/drones/drones.service.ts:215-228 | `randomLegs` returns one leg per weight; the legs add up to `total` exactly; none is negative; each is 0 or 1 above its floor |
| Legs.PartitionPositive | api/src/modules/drones/drones.service.ts:215-228 | with at least 6 ms per leg, every leg is at least 1 ms, so no leg is skipped |
| Legs.RandomLegs | api/src/modules/drones/drones.service.ts:215-228 | the imperative floor-then-correct procedure has as many legs as weights, and they sum to `total` |
| Legs.AdjustLoop | api/src/modules/drones/drones.service.ts:222-226 | the `for` loop that walks the legs while `diff` is non-zero computes the correction `Adjust` describes |
| EventBus.Empty | api/src/modules/drones/drones.service.ts:83-88 | the bus starts with one empty, well-formed log per catalog id, no listener registered and nothing delivered |
| EventBus.On | api/src/modules/drones/drones.service.ts:108-113 | fails with `NotFound` exactly for an id without a listener set; otherwise adds one fresh listener for that id, which has received nothing yet, and keeps every other registration and everything already received |
| EventBus.Off | api/src/modules/drones/drones.service.ts:112 | the handle removes exactly its own callback; every other registration and every log is kept |
| EventBus.Emit | api/src/modules/drones/drones.service.ts:115-125 | every callback registered for the id receives the event once and every other callback receives nothing; the drone's log grows by the event; an unknown id changes nothing |
| EventBus.SilentAfterOff | api/src/modules/drones/drones.service.ts:112-125 | once its handle has run, a callback receives nothing from a later emit |
| EventBus.OffIdempotent | api/src/modules/drones/drones.service.ts:112 | calling the handle twice is the same as calling it once |
| EventBus.OffOnlyThatCallback | api/src/modules/drones/drones.service.ts:112 | removing one callback leaves every other registration listening |
| Simulation.InitInv | api/src/modules/drones/drones.service.ts:39-96 | the constructed service satisfies the invariant; it lists the catalog and no timer is pending |
| Simulation.GetAll | api/src/modules/drones/drones.service.ts:98-100 | `getAll` lists the four drones in catalog order, each exactly as the service currently holds it, so a lookup in the result agrees with a lookup in the service; an id is found exactly when it is a catalog id |
| Simulation.Launch | api/src/modules/drones/drones.service.ts:130-194 | `launch` fails with `NotFound(id)` exactly for a non-catalog id, and otherwise keeps the state well formed |
| Simulation.Relaunch | api/src/modules/drones/drones.service.ts:137-193 | past the running check, `launch` returns the drone it stores: running, at stop 1, started at `now`, with no finish time, and a timer pending for it; the state stays well formed |
| Simulation.StopTimer | api/src/modules/drones/drones.service.ts:202-208 | after `stopTimer` the drone's slot is empty and every other slot, every drone and every log are as before; on an empty slot nothing changes |
| Simulation.ScheduleTimer | api/src/modules/drones/drones.service.ts:197-200 | after `scheduleTimer` the drone's slot holds exactly the new timer, replacing any earlier one, and every other slot, every drone and every log are as before |
| Simulation.LaunchWhileRunning | api/src/modules/drones/drones.service.ts:133-135 | launching a running drone returns it unchanged and leaves the state unchanged: no new total, no event, no timer touched |
| Simulation.DrawnLegs | api/src/modules/drones/drones.service.ts:145-151 | a launch's draws give a total in `[10000, 40000]` and nine legs of at least 1 ms that add up to it |
| Simulation.LaunchFromRest | api/src/modules/drones/drones.service.ts:137-191 | launching an idle or finished drone: it runs from stop 1, started now, with no finish time and a total in `[10000, 40000]` equal to the sum of its legs; the log grows by exactly `{stop: 1, finished: false, etaToNextMs: legs[0], startedAt}`; leg 0 is pending with delay `legs[0]`; the returned drone is the new registry state; other drones are untouched; the invariant is kept |
| Simulation.Fire | api/src/modules/drones/drones.service.ts:163-188 | a firing keeps the state well formed and touches only its own drone's slot and log; an empty slot fires nothing |
| Simulation.Finish | api/src/modules/drones/drones.service.ts:164-174 | the firing past the last stop marks only this drone finished at `now`, keeping its stop and start time, appends the terminal event (stop 10, finished, its start time, `now`) to its log only, and leaves its slot empty |
| Simulation.Advance | api/src/modules/drones/drones.service.ts:177-187 | any earlier firing moves only this drone to the timer's next stop, appends one unfinished event with that stop and the next leg's delay (0 after the last leg) to its log only, and puts the next leg's timer in its slot |
| Simulation.TimerInvNext | api/src/modules/drones/drones.service.ts:178-187 | the timer a leg schedules agrees with the stop the drone has just reached |
| Simulation.FireAdvances | api/src/modules/drones/drones.service.ts:176-187 | a firing before stop 10 raises the stop by exactly one, publishes `{stop, finished: false, etaToNextMs}` with the next leg (0 after the last), and leaves exactly one timer with that delay; the firings still to come drop by one; the invariant is kept |
| Simulation.FireFinishes | api/src/modules/drones/drones.service.ts:164-175 | the firing at stop 10, scheduled with delay 0, finishes the drone at `now`, publishes the terminal event and leaves no timer; the invariant is kept |
| Simulation.FireInv | api/src/modules/drones/drones.service.ts:162-188 | any firing keeps the invariant; in particular the stop stays in 1..10 |
| Simulation.LaunchInv | api/src/modules/drones/drones.service.ts:130-194 | any launch keeps the invariant |
| Race.FireNElsewhere | api/src/modules/drones/drones.service.ts:163-188 | firing one drone's timer any number of times leaves every other drone, timer and log unchanged |
| Race.ProgressEventsEta | api/src/modules/drones/drones.service.ts:178-184 | the `etaToNextMs` values a run announces from stop `c` on add up to what is left of its legs |
| Race.RunToFinish | api/src/modules/drones/drones.service.ts:162-191 | from any running state, exactly the number of firings still to come bring the drone to rest: finished at stop 10 at the last firing's time, no timer pending, its log extended by one progress event per stop and then the terminal event, and the fired delays summing to the rest of the legs |
| Race.RaceFromStart | api/src/modules/drones/drones.service.ts:153-191 | a just-started drone fired ten times runs the whole race: start event, stops 2..10, terminal event, finished with both timestamps and no timer; the announced times and the scheduled delays both add up to `totalMs` |
| Race.LaunchThenRun | api/src/modules/drones/drones.service.ts:130-194 | launching an idle or finished drone and firing its timer ten times (nine legs plus the zero-delay final step) ends the race with status finished, `finishedAt` set, the terminal event last and no timer pending; all scheduled delays add up to `totalMs` |
| Controller.SnapshotAgreesWithLog | api/src/modules/drones/drones.controller.ts:69-77 | a finished drone's snapshot is exactly its terminal event; a running drone's has the stop and the finished flag of its last event; an idle drone has published nothing and its snapshot is stop 1, not finished, without timestamps |
| Controller.Snapshot | api/src/modules/drones/drones.controller.ts:69-77 | the first message of a stream carries the drone's current stop and both timestamps, says finished exactly when the drone is finished, and has no time to the next stop |
| Controller.Stream | api/src/modules/drones/drones.controller.ts:57-81 | an unknown id fails with `NotFound` before any listener is registered; otherwise a fresh subscriber receives the drone's snapshot first and then every event published for the drone after that point, and nothing but the bus changes |
| Controller.Subscribe | api/src/modules/drones/drones.controller.ts:64-77 | registering the listener and then pushing the snapshot yields a subscriber whose messages are the snapshot followed by the log from its current end |
| Controller.Teardown | api/src/modules/drones/drones.controller.ts:79 | after teardown the subscriber listens to no drone, and drones and timers are unchanged |
| Controller.EmitKeepsForwarding | api/src/modules/drones/drones.controller.ts:65-67 | an event for the drone reaches its subscriber unchanged and last; events for other drones do not reach it |
| Controller.StreamKeepsForwarding | api/src/modules/drones/drones.controller.ts:64-77 | opening another stream leaves an existing subscription forwarding as before |
| Controller.TeardownKeepsOthers | api/src/modules/drones/drones.controller.ts:79 | tearing down one subscription leaves every other one forwarding |
| Controller.LaunchKeepsForwarding | api/src/modules/drones/drones.controller.ts:65-67 | any launch keeps every subscription forwarding, the start event included |
| Controller.FireKeepsForwarding | api/src/modules/drones/drones.controller.ts:65-67 | any timer firing keeps every subscription forwarding |
| Controller.FireNKeepsForwarding | api/src/modules/drones/drones.controller.ts:65-67 | any number of firings keeps every subscription forwarding |
| Controller.StreamInv | api/src/modules/drones/drones.controller.ts:57-81 | opening a stream keeps the service invariant |
| Controller.WatchedRace | api/src/modules/drones/drones.controller.ts:57-81 | a client that subscribes to an idle or finished drone before it is launched receives exactly twelve messages: the snapshot, then the eleven events the race published, in order |
| Lists.Filter | apps/web/src/app/features/drones/drones.component.ts:44-47 | `filter` keeps only elements of the input that satisfy the predicate, and never more elements than the input has |
| Lists.FilterCount | apps/web/src/app/features/drones/drones.component.ts:44-47 | `filter` keeps every satisfying element as often as the input holds it, and no other |
| Lists.FilterNonEmpty | apps/web/src/app/features/drones/drones.component.ts:44-47 | `filter` returns something exactly when some element satisfies the predicate |
| Lists.Every | apps/web/src/app/features/drones/drones.component.ts:62-65 | `every` holds exactly when the predicate holds of every element, and holds of the empty list |
| Lists.FindIndex | web/src/app/features/drones/drones.component.ts:143 | `findIndex` returns the first satisfying index, or -1 exactly when no element satisfies the predicate |
| Lists.Insert | apps/web/src/app/features/drones/drones.component.ts:48 | inserting adds exactly one element and keeps the others |
| Lists.SortBy | apps/web/src/app/features/drones/drones.component.ts:48 | `sort` returns a permutation of its input |
| Lists.SortBySorted | apps/web/src/app/features/drones/drones.component.ts:48 | with a consistent comparator, `sort` returns its input in comparator order |
| Lists.SortByStable | apps/web/src/app/features/drones/drones.component.ts:48 | `sort` is stable: elements the comparator ties keep their input order |
| Names.StrLeTotal | web/src/app/features/drones/drones.component.ts:79 | any two names are ordered one way or the other |
| Names.StrLeTrans | web/src/app/features/drones/drones.component.ts:79 | the name order is transitive |
| Names.StrLeAntisymmetric | web/src/app/features/drones/drones.component.ts:79 | only equal names compare as equal |
| Views.UpdateDrone | apps/web/src/app/features/drones/drones.service.ts:69-71 | the list keeps its length, order and identities; the entries with that id take all five patched fields; every other entry is unchanged |
| Views.UpdateDroneIdempotent | apps/web/src/app/features/drones/drones.service.ts:69-71 | applying the same message twice is applying it once |
| Views.UpdateDroneLastWins | apps/web/src/app/features/drones/drones.service.ts:69-71 | a later message for a drone overrides an earlier one entirely |
| Views.UpdateDroneCommutes | apps/web/src/app/features/drones/drones.service.ts:69-71 | messages for two different drones can be applied in either order |
| Views.Ranked | apps/web/src/app/features/drones/drones.component.ts:50-55 | one leaderboard row per drone, in order, ranked 1..n |
| Views.ByDurationConsistent | apps/web/src/app/features/drones/drones.component.ts:48 | the duration comparator is a total preorder, so the sort is well defined |
| Views.RawPctFacts | apps/web/src/app/features/drones/drones.service.ts:85 | the unclamped percentage is 0 at stop 1 and 100 at stop 10, rises with the stop, and lies in [0, 100] exactly for stops 1..10 |
| AppsWebClient.NormalizeStatus | apps/web/src/app/features/drones/drones.service.ts:53-67 | "running" and "finished" map to their status, and every other string to idle |
| AppsWebClient.NormalizeRoundTrip | apps/web/src/app/features/drones/drones.service.ts:53-67 | reading back the wire name of any status gives that status |
| AppsWebClient.ClampedPct | apps/web/src/app/features/drones/drones.service.ts:36-39 | the percentage lies in [0, 100]; it is exact for stops 1..10, 0 below and 100 above |
| AppsWebClient.ToVM | apps/web/src/app/features/drones/drones.service.ts:34-51 | `toVM` copies identity and timestamps, builds the photo path, normalises the status, uses stop 1 when the server omits it, and shows the stop's percentage clamped into [0, 100] |
| AppsWebClient.StreamPatch | apps/web/src/app/features/drones/drones.service.ts:84-93 | a message's stop is clamped into 1..10; the status is finished exactly on a finished message and running otherwise; `finishedAt` is kept only when finished; `startedAt` is copied; the percentage matches the clamped stop |
| AppsWebClient.OnMessage | apps/web/src/app/features/drones/drones.service.ts:75-98 | one message patches exactly the watched drone's entries and leaves every other entry as it was; the stream is closed after it exactly when the message is finished |
| AppsWebClient.Consume | apps/web/src/app/features/drones/drones.service.ts:75-98 | the client takes messages up to and including the first finished one and then closes; it takes none only from an empty stream; the watched drone ends as patched by the last message taken, whatever came before, and entries of other drones are never changed |
| AppsWebClient.ConsumeRace | apps/web/src/app/features/drones/drones.service.ts:75-98 | following a whole race's stream, the client takes every message and ends showing the drone finished at stop 10, at 100%, with the race's timestamps |
| AppsWebClient.LeaderboardSpec | apps/web/src/app/features/drones/drones.component.ts:44-55 | the leaderboard lists exactly the finished drones with both timestamps, each as often as in the list, by ascending race time with ties in list order, ranked 1..n |
| AppsWebClient.LeaderboardEmpty | apps/web/src/app/features/drones/drones.component.ts:44-48 | the leaderboard is empty exactly when no drone has finished with both timestamps |
| AppsWebClient.AllFinished | apps/web/src/app/features/drones/drones.component.ts:58-67 | false on an empty list; otherwise true exactly when every drone is finished or at stop 10 or beyond |
| AppsWebClient.WinnerSpec | apps/web/src/app/features/drones/drones.component.ts:69-72 | a winner is named exactly when the race is over and some drone finished with both timestamps; it is such a drone, and no finished drone took less time |
| WebClient.Progress | web/src/app/features/drones/drones.service.ts:60 | the percentage never exceeds 100; it is non-negative exactly for stops 1 and above; it is exact for stops 1..10 |
| WebClient.FromServer | web/src/app/features/drones/drones.service.ts:27-37 | the mapping copies identity, status string and timestamps unchanged, builds the photo path `/images/<id>.png`, uses stop 1 when the server omits it, and shows the stop's percentage capped at 100 but not below 0 |
| WebClient.NegativeProgress | web/src/app/features/drones/drones.service.ts:34 | a drone reported at stop 0 is shown below 0% |
| WebClient.StreamPatch | web/src/app/features/drones/drones.service.ts:60-67 | status is "finished" exactly on a finished message and "running" otherwise; the stop is taken as sent, without clamping, and the percentage is that stop's, capped at 100 only; `finishedAt` is kept only when finished; `startedAt` is copied |
| WebClient.OnMessage | web/src/app/features/drones/drones.service.ts:58-68 | one message patches exactly the watched drone's entries with that patch and leaves every other entry as it was; the stream stays open |
| WebClient.Follow | web/src/app/features/drones/drones.service.ts:56-70 | after any run of messages the list keeps its length and identities, other drones' entries are unchanged, and with no message it is unchanged |
| WebClient.FollowLastWins | web/src/app/features/drones/drones.service.ts:58-68 | every message overwrites all five fields, so after a run of messages the list is what the last message alone would have made it |
| WebClient.FollowToFinish | web/src/app/features/drones/drones.service.ts:58-68 | a stream ending with the terminal event leaves the drone shown "finished" at stop 10, at 100%, with the race's timestamps, whatever the earlier messages were |
| WebClient.ByStopThenNameConsistent | web/src/app/features/drones/drones.component.ts:77-80 | the in-race comparator (further stop first, then name) is a total preorder |
| WebClient.ByStopThenNameTies | web/src/app/features/drones/drones.component.ts:77-80 | the comparator ties only drones at the same stop with the same name |
| WebClient.LeaderboardContents | web/src/app/features/drones/drones.component.ts:66-90 | the leaderboard holds every drone still racing and every finished drone with both timestamps, each as often as in the list; a finished drone missing a timestamp is absent; rows are ranked 1..n |
| WebClient.LeaderboardParts | web/src/app/features/drones/drones.component.ts:70-82 | the finished drones come first, then the drones still racing |
| WebClient.LeaderboardOrder | web/src/app/features/drones/drones.component.ts:70-82 | the finished part is by ascending race time; the in-race part is by descending stop, then by name |
| WebClient.InRaceStable | web/src/app/features/drones/drones.component.ts:75-80 | drones still racing with the same stop and name keep their list order |
| WebClient.AllFinished | web/src/app/features/drones/drones.component.ts:92-102 | false on an empty list; otherwise true exactly when every drone is finished, has a finish time, or is at stop 10 or beyond |
| WebClient.WinnerNamed | web/src/app/features/drones/drones.component.ts:104-107 | a winner is named exactly when the race is over and some drone is on the leaderboard, and it is the leaderboard's first drone |
| WebClient.WinnerFastest | web/src/app/features/drones/drones.component.ts:104-107 | when some drone finished with both timestamps, the winner is the fastest of those |
| WebClient.WinnerFirstInRace | web/src/app/features/drones/drones.component.ts:104-107 | when no drone finished with both timestamps, the winner is the drone still racing that is furthest ahead, by name among equals |
| WebClient.ColorFor | web/src/app/features/drones/drones.component.ts:142-146 | the colour is always a palette entry: the one at the drone's list position modulo 4, or the first when the drone is not listed |
| WebClient.ColorsCycle | web/src/app/features/drones/drones.component.ts:142-146 | with distinct ids, two drones share a colour exactly when their positions are congruent modulo 4 |
| Session.LaunchThenWatch | api/src/modules/drones/drones.controller.ts:64-80 | after a launch, a stream opened on the drone carries a whole race: unfinished messages, then the terminal event with the launch time and the last firing's time |
| Session.ClientSeesFinish | apps/web/src/app/features/drones/drones.service.ts:73-98 | the `apps/web` client that launches a drone and follows its stream through the ten firings takes every message, closes on the last, and shows the drone finished at stop 10, at 100%, started at the launch and finished at the last firing |
| Session.WatchRun | api/src/modules/drones/drones.controller.ts:64-80 | a stream opened on a running drone at any stop, followed by its remaining firings, carries an unfinished snapshot, the progress events from that stop on, and the terminal event with the run's start time and the last firing's time |
| Session.LateClientSeesFinish | apps/web/src/app/features/drones/drones.service.ts:73-98 | an `apps/web` client that connects while the drone is already racing takes every remaining message, closes on the last, and shows the drone finished at stop 10 with the run's start time and the last firing's time |

## Left out

- Real timers, `Date.now` and `Math.random` are not modelled. A timer is a
  pending slot, and `Fire` is its callback running. The clock reading and
  the random draws are parameters. Wall-clock delays between firings are
  not modelled, so the claim "the race ends after about `totalMs`" is
  stated as "the scheduled delays add up to `totalMs`".
- Floating point: the weights, the normalisation and the percentages are
  exact reals. IEEE rounding of the shares is not modelled.
- Legs.PartitionExact: the exact sum is proved for the weights
  the random draw can produce, and for any non-negative total. The
  code would also run with other weights, which it never receives.
- Legs.PartitionPositive: positivity of every leg is proved for totals
  of at least 6 ms per leg. That covers every launch, whose totals start
  at 10000 ms.
- `getWinner` is not modelled: the service file does not define it, though
  its test calls it. The minimum-duration winner is stated for the
  clients' `winnerId`.
- The controller's `getAll`, `getById` and `launch` hand the service's
  results back unchanged, so they are the service functions themselves.
  NestJS decorators, guards and Swagger metadata are out of scope.
- Aliasing: `launch` on a running drone returns the live registry object,
  and otherwise a copy. The model has values only, so both are the
  drone's state at that moment.
- Listener identity: a callback is a fresh token per `on` call.
  Registering the very same function object twice, which a `Set` would
  store once, is not modelled. The controller never does that.
- An exception thrown by a callback is caught inside `emit`, so it
  neither stops delivery nor reaches the caller. Delivery is therefore
  modelled as always reaching every registered callback.
- `localeCompare` is modelled as code-unit order. Locale collation
  (accents, case) is not modelled; only its being a consistent total
  order matters to the leaderboard.
- The `DroneStatus` enum file of `apps/web` is not part of this model. The
  enum is the shared three-valued status, and its members are the wire
  strings.
- Transport and I/O: HttpClient, EventSource, RxJS, JSON parsing, and the
  stream's `onerror` handler that closes it.
- `launchAll` of both clients: a loop of independent launches.
- The web client's template helpers `percent`, `stopPct`, `displayName`
  and `trackById`.
- Every Angular view with no logic, the canvas race animation,
  authentication and login.
- `allFinished` reads `currentStop ?? 0`. The view model always holds a
  stop, so the fallback is never taken and the model reads the stop
  directly.
- The component test of the `web` client disagrees with its component;
  the model follows the component.
- The `web` client never clamps the percentage from below. A stop below 1, which the server never sends, shows a negative
  percentage; `WebClient.NegativeProgress` gives such an input. The model
  keeps this behaviour as written.
