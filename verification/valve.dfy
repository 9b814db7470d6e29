/**
  One valve (src/valve.h, src/valve.cpp): the actuation state machine advanced by
  `tick`, the relay it drives, and its configuration and status records.

  The pure part states what a tick does to the observable state of a valve
  (`NextState`, `Ticked`, `Run`); the class `Valve` holds the mutable fields
  and its `Tick` runs the firmware's fall-through switch, proved to agree with
  `Ticked`.
 */
module Valves {
  import opened Wrappers
  import opened ValveStates
  import opened Timed

  /** One move of the state machine: along the cycle closed -> opening -> open -> closing -> closed,
      or a reversal between the two moving states. */
  ghost predicate Move(a: ValveState, b: ValveState) {
    || (a == Closed && b == Opening)
    || (a == Opening && (b == Open || b == Closing))
    || (a == Open && b == Closing)
    || (a == Closing && (b == Closed || b == Opening))
  }

  /** The direction a state reports: true for the two states on the way to or at open. */
  predicate HeadsOpen(s: ValveState) {
    s == Opening || s == Open
  }

  /**
    The state after one tick, as a transition table: an end state is entered only when the
    demand agrees and the dwell time has reached the switch time; a reversal of demand turns a
    moving valve around at once; `Error` stays as it is.
   */
  function NextState(s: ValveState, demandOpen: bool, switchTimeElapsed: bool): (r: ValveState)
    ensures r == s || Move(s, r)
    ensures r == Error <==> s == Error
    ensures s != Error ==> (HeadsOpen(r) <==> demandOpen)
    ensures r == Open && s != Open ==> demandOpen && switchTimeElapsed
    ensures r == Closed && s != Closed ==> !demandOpen && switchTimeElapsed
  {
    match s
    case Closed => if demandOpen then Opening else Closed
    case Opening => if !demandOpen then Closing else if switchTimeElapsed then Open else Opening
    case Open => if demandOpen then Open else Closing
    case Closing => if demandOpen then Opening else if switchTimeElapsed then Closed else Closing
    case Error => Error
  }

  /** A demand reversal in mid-travel turns the valve around in one tick, whatever the dwell time. */
  lemma ReversalInMidTravel(switchTimeElapsed: bool)
    ensures NextState(Closing, true, switchTimeElapsed) == Opening
    ensures NextState(Opening, false, switchTimeElapsed) == Closing
  {
  }

  /** Everything about a valve that a tick reads or writes. `level` is the last value sent to the relay. */
  datatype ValveView = ValveView(
    name: string,
    switchTime: nat,
    demandOpen: bool,
    state: ValveState,
    stamp: nat,
    level: bool)

  /** The valve after one tick at `now`: the state moves per `NextState` (restarting the
      stopwatch when it changes) and the relay is commanded to the demand. */
  function Ticked(v: ValveView, now: nat): (r: ValveView)
    requires v.stamp <= now
    ensures r.name == v.name && r.switchTime == v.switchTime && r.demandOpen == v.demandOpen
    ensures r.level == r.demandOpen
    ensures r.state == v.state || Move(v.state, r.state)
    ensures r.state != v.state ==> r.stamp == now
    ensures r.state == v.state ==> r.stamp == v.stamp
    ensures v.stamp <= r.stamp <= now
  {
    var s := NextState(v.state, v.demandOpen, now - v.stamp >= v.switchTime);
    v.(state := s, stamp := if s == v.state then v.stamp else now, level := v.demandOpen)
  }

  /** After any tick of a valve that is not in `Error`, the reported direction agrees with the relay. */
  lemma TickedDirectionMatchesOutput(v: ValveView, now: nat)
    requires v.stamp <= now && v.state != Error
    ensures HeadsOpen(Ticked(v, now).state) <==> Ticked(v, now).level
  {
  }

  /** Tick instants that never go back and never precede `start`. */
  ghost predicate Chronological(start: nat, ts: seq<nat>) {
    && (forall i :: 0 <= i < |ts| ==> start <= ts[i])
    && (forall i, j :: 0 <= i < j < |ts| ==> ts[i] <= ts[j])
  }

  /** The valve after a tick at each instant of `ts`, in order, with nothing else changing it. */
  ghost function Run(v: ValveView, ts: seq<nat>): (r: ValveView)
    requires Chronological(v.stamp, ts)
    ensures r.name == v.name && r.switchTime == v.switchTime && r.demandOpen == v.demandOpen
    ensures ts != [] ==> r.level == v.demandOpen
    ensures ts == [] ==> r == v
    decreases |ts|
  {
    if ts == [] then v else Run(Ticked(v, ts[0]), ts[1..])
  }

  /** The last instant of a non-empty run. */
  function Last(ts: seq<nat>): nat
    requires ts != []
  {
    ts[|ts| - 1]
  }

  /** Open and demanded open: the valve stays open. */
  lemma {:induction false} HeldOpenStaysOpen(v: ValveView, ts: seq<nat>)
    requires v.demandOpen && v.state == Open && Chronological(v.stamp, ts)
    ensures Run(v, ts).state == Open
    decreases |ts|
  {
    if ts != [] {
      HeldOpenStaysOpen(Ticked(v, ts[0]), ts[1..]);
    }
  }

  /** Closed and demanded closed: the valve stays closed. */
  lemma {:induction false} HeldClosedStaysClosed(v: ValveView, ts: seq<nat>)
    requires !v.demandOpen && v.state == Closed && Chronological(v.stamp, ts)
    ensures Run(v, ts).state == Closed
    decreases |ts|
  {
    if ts != [] {
      HeldClosedStaysClosed(Ticked(v, ts[0]), ts[1..]);
    }
  }

  /** Opening and held open: the valve reports open exactly when some tick came at least the
      switch time after it started opening, which for ordered ticks means the last one did. */
  lemma {:induction false} HeldOpenFromOpening(v: ValveView, ts: seq<nat>)
    requires v.demandOpen && v.state == Opening && Chronological(v.stamp, ts) && ts != []
    ensures Run(v, ts).state == if Last(ts) - v.stamp >= v.switchTime then Open else Opening
    decreases |ts|
  {
    var w := Ticked(v, ts[0]);
    if ts[0] - v.stamp >= v.switchTime {
      assert w.state == Open;
      HeldOpenStaysOpen(w, ts[1..]);
    } else if |ts| > 1 {
      assert w.state == Opening && w.stamp == v.stamp;
      HeldOpenFromOpening(w, ts[1..]);
      assert Last(ts[1..]) == Last(ts);
    }
  }

  /** Closing and held closed: the valve reports closed exactly when the last tick came at least
      the switch time after it started closing. */
  lemma {:induction false} HeldClosedFromClosing(v: ValveView, ts: seq<nat>)
    requires !v.demandOpen && v.state == Closing && Chronological(v.stamp, ts) && ts != []
    ensures Run(v, ts).state == if Last(ts) - v.stamp >= v.switchTime then Closed else Closing
    decreases |ts|
  {
    var w := Ticked(v, ts[0]);
    if ts[0] - v.stamp >= v.switchTime {
      assert w.state == Closed;
      HeldClosedStaysClosed(w, ts[1..]);
    } else if |ts| > 1 {
      assert w.state == Closing && w.stamp == v.stamp;
      HeldClosedFromClosing(w, ts[1..]);
      assert Last(ts[1..]) == Last(ts);
    }
  }

  /** Closed and then held open: the first tick only starts opening (even with a zero switch time),
      and open is reported once a later tick comes a switch time after that first one. */
  lemma {:induction false} HeldOpenFromClosed(v: ValveView, ts: seq<nat>)
    requires v.demandOpen && v.state == Closed && Chronological(v.stamp, ts) && ts != []
    ensures Run(v, ts).state ==
      if |ts| > 1 && Last(ts) - ts[0] >= v.switchTime then Open else Opening
  {
    var w := Ticked(v, ts[0]);
    assert w.state == Opening && w.stamp == ts[0];
    if |ts| > 1 {
      HeldOpenFromOpening(w, ts[1..]);
      assert Last(ts[1..]) == Last(ts);
    }
  }

  /** Open and then held closed: the mirror image of `HeldOpenFromClosed`. */
  lemma {:induction false} HeldClosedFromOpen(v: ValveView, ts: seq<nat>)
    requires !v.demandOpen && v.state == Open && Chronological(v.stamp, ts) && ts != []
    ensures Run(v, ts).state ==
      if |ts| > 1 && Last(ts) - ts[0] >= v.switchTime then Closed else Closing
  {
    var w := Ticked(v, ts[0]);
    assert w.state == Closing && w.stamp == ts[0];
    if |ts| > 1 {
      HeldClosedFromClosing(w, ts[1..]);
      assert Last(ts[1..]) == Last(ts);
    }
  }

  /** A run never leaves `Error` and never enters it. */
  lemma {:induction false} RunKeepsError(v: ValveView, ts: seq<nat>)
    requires Chronological(v.stamp, ts)
    ensures Run(v, ts).state == Error <==> v.state == Error
    decreases |ts|
  {
    if ts != [] {
      RunKeepsError(Ticked(v, ts[0]), ts[1..]);
    }
  }

  // ---------------------------------------------------------------------------------------
  // Configuration and status records

  /** What `get_config` reports: the name and the switch time (kept here in milliseconds). */
  datatype ValveConfig = ValveConfig(name: string, switchTime: nat)

  /** What `get_status` reports: the configuration plus the state token. */
  datatype ValveStatus = ValveStatus(name: string, switchTime: nat, state: string)

  /** A configuration document as `set_config` sees it: each key present or absent. */
  datatype ConfigPatch = ConfigPatch(name: Option<string>, switchTime: Option<nat>)

  /** The document with neither key, as read from a missing or non-object configuration entry. */
  const NoKeys := ConfigPatch(None, None)

  /** The configuration after a partial merge: the present keys replace, the absent keys keep. */
  function Merge(c: ValveConfig, p: ConfigPatch): (r: ValveConfig)
    ensures p.name.None? ==> r.name == c.name
    ensures p.switchTime.None? ==> r.switchTime == c.switchTime
    ensures p.name.Some? ==> r.name == p.name.value
    ensures p.switchTime.Some? ==> r.switchTime == p.switchTime.value
  {
    ValveConfig(p.name.GetOr(c.name), p.switchTime.GetOr(c.switchTime))
  }

  /** The document `get_config` produces, as `set_config` would read it back. */
  function AsPatch(c: ValveConfig): (p: ConfigPatch)
    ensures p.name.Some? && p.switchTime.Some?
  {
    ConfigPatch(Some(c.name), Some(c.switchTime))
  }

  /** Writing back the configuration a valve reports yields that configuration, whatever the valve held. */
  lemma ConfigRoundTrip(c: ValveConfig, held: ValveConfig)
    ensures Merge(held, AsPatch(c)) == c
  {
  }

  /** Applying the same document twice is the same as applying it once. */
  lemma MergeIdempotent(c: ValveConfig, p: ConfigPatch)
    ensures Merge(Merge(c, p), p) == Merge(c, p)
  {
  }

  /** A document with no keys changes nothing. */
  lemma MergeNoKeys(c: ValveConfig)
    ensures Merge(c, NoKeys) == c
  {
  }

  // ---------------------------------------------------------------------------------------
  // The objects

  /** The relay a valve drives; only the last commanded level is modelled. */
  class BinaryOutput {
    var level: bool

    constructor (level: bool)
      ensures this.level == level
    {
      this.level := level;
    }

    /** Commands the relay. */
    method Set(value: bool)
      modifies this
      ensures level == value
    {
      level := value;
    }
  }

  class Valve {
    var name: string
    var switchTime: nat
    var demandOpen: bool
    /** The relay, fixed for the valve's lifetime. */
    const output: BinaryOutput
    /** The reported state with the stopwatch of its last change; only `Tick` assigns it. */
    const state: TimedValue<ValveState>

    /** A new valve, closed and not demanded open; `name` defaults to "" and `switchTime` to 0. */
    constructor (output: BinaryOutput, now: nat, name: string := "", switchTime: nat := 0)
      ensures this.output == output && this.name == name && this.switchTime == switchTime
      ensures !demandOpen && fresh(state)
      ensures state.value == Closed && state.stamp == now && state.history == []
      ensures output.level == old(output.level)
    {
      this.name := name;
      this.switchTime := switchTime;
      this.demandOpen := false;
      this.output := output;
      this.state := new TimedValue(Closed, now);
    }

    /** The current state, read without side effects. */
    function GetState(): (s: ValveState)
      reads state
      ensures s == state.value
    {
      state.Get()
    }

    /** The valve's observable fields. */
    ghost function View(): (r: ValveView)
      reads this, state, output
    {
      ValveView(name, switchTime, demandOpen, state.value, state.stamp, output.level)
    }

    /**
      One step of the state machine. The `closing` case falls through into `closed` and the
      `opening` case into `open`; the relay is set from the demand whatever the state.
     */
    method Tick(now: nat)
      requires state.stamp <= now
      modifies state, output
      ensures View() == Ticked(old(View()), now)
      ensures state.history == old(state.history) || state.history == old(state.history) + [state.value]
    {
      var switchTimeElapsed := state.Elapsed(now) >= switchTime;
      var s := state.Get();
      match s {
        case Closing =>
          if !demandOpen && switchTimeElapsed {
            var _ := state.Assign(Closed, now);
          }
          // fall through into the `Closed` case
          if demandOpen {
            var _ := state.Assign(Opening, now);
          }
        case Closed =>
          if demandOpen {
            var _ := state.Assign(Opening, now);
          }
        case Opening =>
          if demandOpen && switchTimeElapsed {
            var _ := state.Assign(Open, now);
          }
          // fall through into the `Open` case
          if !demandOpen {
            var _ := state.Assign(Closing, now);
          }
        case Open =>
          if !demandOpen {
            var _ := state.Assign(Closing, now);
          }
        case Error =>
      }
      output.Set(demandOpen);
    }

    /** `get_config`: the name and switch time. */
    function GetConfig(): (c: ValveConfig)
      reads this
      ensures c.name == name && c.switchTime == switchTime
    {
      ValveConfig(name, switchTime)
    }

    /** `get_status`: the configuration and the token of the current state. */
    function GetStatus(): (st: ValveStatus)
      reads this, state
      ensures st.name == name && st.switchTime == switchTime
      ensures st.state == ToCStr(state.value) && st.state in Tokens
    {
      var c := GetConfig();
      ValveStatus(c.name, c.switchTime, ToCStr(state.value))
    }

    /** `set_config`: merges the present keys; never fails. The state, its stopwatch and the
        demand are untouched. */
    method SetConfig(patch: ConfigPatch) returns (ok: bool)
      modifies this
      ensures ok
      ensures GetConfig() == Merge(old(GetConfig()), patch)
      ensures demandOpen == old(demandOpen)
    {
      if patch.name.Some? {
        name := patch.name.value;
      }
      if patch.switchTime.Some? {
        switchTime := patch.switchTime.value;
      }
      ok := true;
    }
  }
}
