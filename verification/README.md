# Valvola valve controller — Dafny model

Valvola is firmware for a small board that switches up to four water or heating valves through
relays. This project models its core. That core is the valve actuation state machine
(`Valve::tick`), the timed value that measures how long a valve has been in its state, the state
enum and its tokens, the partial configuration merge, and the collection logic around it. The
collection logic covers the initial table of four valves, the bounds-checked lookup by index, the
bulk demand update by name, positional configuration at start-up, and the control loop that
ticks every valve.

The clock is an explicit parameter `now: nat`: a monotonic millisecond reading supplied by the
caller. A `TimedValue` keeps a `stamp`, the instant of its last assignment, so its elapsed time
is `now - stamp`. Each tick reads the clock when it runs, so a pass of the control loop and a
bulk update take one reading per tick (`nows`) rather than one for the whole pass. The bulk update
requires its readings to be nondecreasing. The control loop only requires each reading to be no
earlier than the stopwatch of the valve it ticks.

Files and modules:

- `wrappers.dfy` (`Wrappers`): the `Option` type.
- `valvestate.dfy` (`ValveStates`): the five states, their numbering and their string tokens.
- `timedvalue.dfy` (`Timed`): the class `TimedValue<T>`. Besides the value and its stamp, it
  keeps a ghost `history` of every assigned value.
- `valve.dfy` (`Valves`): the state machine as a transition table (`NextState`) and as a step on a
  valve's observable fields (`Ticked`), runs of ticks (`Run`) and their lemmas, the configuration
  records and their merge, and the classes `BinaryOutput` and `Valve`. `Valve.Tick` runs the
  firmware's switch, fall-through included, and is proved to agree with `Ticked`.
- `valvola.dfy` (`Valvola`): the collection as pure functions on sequences of valve views
  (`FirstMatch`, `SetDemand`, `BulkUpdate`, `TickAll`) with their lemmas, and the class
  `Controller` whose methods update the valves in place and are proved against those functions.

How a tick behaves, as the code does it. The `closing` case falls through into `closed`, and the
`opening` case into `open`. The guard that finishes closing needs `!demand_open`, and the `closed`
arm it falls into needs `demand_open`. The two exclude each other, so one tick changes the state
at most once. Reading the fall-through as a same-tick double transition, closing → closed →
opening, would be wrong: the guards at src/valve.cpp:28 and src/valve.cpp:35 exclude each
other, and this model follows the code. What the fall-through
really does is reverse a moving valve at once: closing → opening when demand is set, and
opening → closing when it is cleared, whatever the dwell time (`ReversalInMidTravel`).

## Model

| member | source | states |
|---|---|---|
| ValveStates.Ordinal | src/valvestate.h:7-13 | the five variants are numbered 0 to 4 in declaration order; only `error` has number 4 |
| ValveStates.OrdinalInjective | src/valvestate.h:7-13 | the five variants are pairwise distinct |
| ValveStates.ToCStr | src/valve.cpp:3-16 | every state maps to one of the five tokens; the token is "error" exactly for the `error` state |
| ValveStates.ToCStrInjective | src/valvestate.h:15 | the four normal states have four different tokens |
| Timed.TimedValue.constructor | src/timedvalue.h:9-11 | stores the initial value and starts the stopwatch (elapsed 0) |
| Timed.TimedValue.Assign | src/timedvalue.h:13-16 | replaces the value, restarts the stopwatch so that elapsed is 0, returns the new value, records one assignment |
| Timed.TimedValue.Get | src/timedvalue.h:18-20 | the read gives the stored value and changes nothing |
| Timed.TimedValue.Elapsed | src/timedvalue.h:22-24 | time since the last assignment or since construction; stamp plus elapsed is now |
| Valves.NextState | src/valve.cpp:26-57 | one tick changes the state by at most one move of the cycle or a reversal; `error` is neither entered nor left; outside `error` the new state heads open exactly when demand is set; `open` and `closed` are entered only with agreeing demand and the switch time elapsed |
| Valves.ReversalInMidTravel | src/valve.cpp:27-53 | closing with demand set gives opening, and opening with demand cleared gives closing, whatever the dwell time |
| Valves.Ticked | src/valve.cpp:23-60 | a tick keeps name, switch time and demand; sets the relay to the demand; restarts the stopwatch exactly when the state changes; never skips a moving state |
| Valves.TickedDirectionMatchesOutput | src/valve.cpp:26-59 | after a tick outside `error`, the reported direction agrees with the relay level |
| Valves.Run | src/valve.cpp:23-60 | a run of ticks keeps name, switch time and demand, and leaves the relay at the demand |
| Valves.HeldOpenStaysOpen | src/valve.cpp:48-53 | an open valve held open stays open through any ticks |
| Valves.HeldClosedStaysClosed | src/valve.cpp:34-39 | a closed valve held closed stays closed through any ticks |
| Valves.HeldOpenFromOpening | src/valve.cpp:41-53 | an opening valve held open reports open exactly when the last tick is at least the switch time after it started opening, and opening otherwise |
| Valves.HeldClosedFromClosing | src/valve.cpp:27-39 | a closing valve held closed reports closed exactly when the last tick is at least the switch time after it started closing, and closing otherwise |
| Valves.HeldOpenFromClosed | src/valve.cpp:34-53 | from closed with demand held, the first tick gives opening even with a zero switch time; open comes only from a later tick at least the switch time after the first |
| Valves.HeldClosedFromOpen | src/valve.cpp:27-53 | the mirror image: from open with demand cleared, closing first, closed only a switch time later |
| Valves.RunKeepsError | src/valve.cpp:55-56 | a run ends in `error` exactly when it started there |
| Valves.Merge | src/valve.cpp:79-91 | a present key replaces the field; an absent key keeps it |
| Valves.AsPatch | src/valve.cpp:62-69 | the configuration document carries both keys |
| Valves.ConfigRoundTrip | src/valve.cpp:62-91 | writing back the reported configuration yields that configuration |
| Valves.MergeIdempotent | src/valve.cpp:79-91 | applying the same document twice equals applying it once |
| Valves.MergeNoKeys | src/valve.cpp:79-91 | a document with neither key changes nothing |
| Valves.Valve.constructor | src/valve.cpp:18-21 | a new valve is closed, not demanded open, keeps the given output, name and switch time, and leaves the relay alone; name defaults to "" and switch time to 0 |
| Valves.Valve.GetState | src/valve.h:20-22 | returns the current state without side effects |
| Valves.Valve.Tick | src/valve.cpp:23-60 | the fall-through switch does what `Ticked` says, and assigns the state at most once |
| Valves.Valve.GetConfig | src/valve.cpp:62-69 | reports the name and switch time |
| Valves.Valve.GetStatus | src/valve.cpp:71-77 | reports the configuration plus the token of the current state |
| Valves.Valve.SetConfig | src/valve.cpp:79-91 | merges the present keys, returns true, and leaves demand and state untouched |
| Valvola.InitialTable | src/valvola.cpp:22-27 | four valves, each with a switch time of 300000 ms |
| Valvola.InitialViews | src/valvola.cpp:22-27 | the initial valves are closed, not demanded open, with stopwatches started at start-up |
| Valvola.FirstMatch | src/valvola.cpp:136-141 | the first position whose name equals the key, or none exactly when no name does |
| Valvola.FirstMatchSkipsDuplicates | src/valvola.cpp:136-141 | a valve whose name an earlier valve carries is never the match |
| Valvola.SetDemand | src/valvola.cpp:135-142 | only the first match gets the demand and is ticked; a key matching no valve changes nothing; names, length and clocks are kept |
| Valvola.BulkUpdate | src/valvola.cpp:134-143 | applying the document, each entry's tick at its own nondecreasing clock reading, keeps the number of valves and their names |
| Valvola.BulkUpdateLeavesOthers | src/valvola.cpp:134-143 | a valve that is not the first match of any key keeps its demand, state and stopwatch |
| Valvola.BulkUpdateSkipsDuplicates | src/valvola.cpp:134-143 | a later valve with a duplicate name is untouched by any document |
| Valvola.OpeningValveTwo | src/valvola.cpp:134-143 | on the initial table, `{"valve 2": true}` makes valve 2 opening in the same call and leaves the others closed |
| Valvola.TickAll | src/valvola.cpp:198-200 | a pass of the loop, each valve's tick at its own clock reading, keeps the number of valves and leaves no stopwatch ahead of its tick |
| Valvola.TickAllAgrees | src/valvola.cpp:198-200 | after a pass, each relay is at its demand, each valve outside `error` reports the same direction, and none skipped a moving state |
| Valvola.EntryAt | src/valvola.cpp:183-186 | valve `idx` is configured from entry `idx`; a missing entry has no keys |
| Valvola.Controller.constructor | src/valvola.cpp:22-27 | the initial table, each valve with its own fresh stopwatch and relay, so the new collection can be updated and ticked |
| Valvola.Controller.ValveAt | src/valvola.cpp:82-89 | an index at or past the end is rejected; otherwise the valve at that position |
| Valvola.Controller.IndexOfName | src/valvola.cpp:136-141 | the first valve carrying the key, or none exactly when no valve does |
| Valvola.Controller.SetDemandByName | src/valvola.cpp:135-142 | one entry of the update on the objects does what `SetDemand` says |
| Valvola.Controller.UpdateDemands | src/valvola.cpp:134-143 | the whole update on the objects, entry `k` handled at `nows[k]`, does what `BulkUpdate` says |
| Valvola.Controller.LoadConfig | src/valvola.cpp:180-187 | valve `idx` is merged with entry `idx` for every valve; demands and states are untouched |
| Valvola.Controller.TickEach | src/valvola.cpp:195-201 | every valve is ticked once, valve `i` at `nows[i]`, as `TickAll` says |

## Left out

- HTTP routing, status codes and method dispatch: network plumbing. Only the index bounds check and the bulk update loop of the handlers are modelled.
- JSON parsing and serialisation: a foreign library. A configuration document is a `ConfigPatch` with optional `name` and `switchTime`. A bulk update document is a sequence of (name, demand) pairs in document order. A missing or non-object start-up entry is the document with no keys.
- The listing responses (`/status`, `/config`, `/valves` GET) and `/config/save`: JSON and file output over the modelled `GetStatus`/`GetConfig`.
- Valves.Valve.GetConfig: reports the switch time in integer milliseconds. The conversion to seconds as a `double`, and back with truncation in `set_config`, is floating point and is not modelled.
- Valves.Valve.SetConfig: takes the new switch time in integer milliseconds, for the same reason.
- Valves.ConfigRoundTrip: the round trip is exact only because switch times stay whole milliseconds here. In the firmware, `get_config` writes milliseconds times 0.001 as a `double` and `set_config` multiplies by 1000 and truncates, so 4007 ms comes back as 4006 ms (4.007 * 1000 is 4006.9999999999995 in IEEE double arithmetic).
- Valves.Valve.Tick: the `printf` logging on each state change is output only.
- The 32-bit width of `unsigned long` for switch times and `millis()` wrap-around: the clock is an unbounded monotonic `now`, and the stopwatch of `utils/stopwatch.h` is not part of this model.
- `BinaryOutput`, `PinOutput` and `PinInput` of `utils/io.h` are not part of this model. A relay is an object that remembers the last level it was commanded to, and its level before the first tick is taken as off.
- LittleFS, WiFi control, the button and the serial banner in `setup`: I/O.
- Prometheus metrics (src/metrics.h): declarations only, no logic.
- `to_json` and `load`, declared in src/valve.h:24-25: they are never defined, so there is nothing to model.
- Access control: `state` and `output` are protected in C++. Here the only member that assigns the state is `Valve.Tick`, and `SetConfig` and `LoadConfig` may change only the valve objects, never their state or relay objects. The public fields `name`, `switchTime` and `demandOpen` can be written by any caller, as in the source.
