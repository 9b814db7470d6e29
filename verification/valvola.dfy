/**
  The collection of valves driven by the firmware (src/valvola.cpp): the initial table, the
  bounds-checked lookup by index, the bulk demand update by name, the start-up configuration
  by position, and the control loop that ticks every valve.
 */
module Valvola {
  import opened Wrappers
  import opened ValveStates
  import opened Valves

  /** The switch time of every valve in the initial table: five minutes. */
  const DefaultSwitchTime: nat := 5 * 60 * 1000

  /** The initial table: four valves, "valve 1" to "valve 4", each with the default switch time. */
  function InitialTable(): (t: seq<ValveConfig>)
    ensures |t| == 4
    ensures forall i :: 0 <= i < 4 ==> t[i].switchTime == 300000
  {
    [ ValveConfig("valve 1", DefaultSwitchTime),
      ValveConfig("valve 2", DefaultSwitchTime),
      ValveConfig("valve 3", DefaultSwitchTime),
      ValveConfig("valve 4", DefaultSwitchTime) ]
  }

  /** The valves of the initial table as freshly constructed at `now`, before any relay is set. */
  function InitialViews(now: nat, levels: seq<bool>): (vs: seq<ValveView>)
    requires |levels| == 4
    ensures |vs| == 4
    ensures forall i :: 0 <= i < 4 ==> vs[i].state == Closed && !vs[i].demandOpen && vs[i].stamp == now
  {
    seq(4, i requires 0 <= i < 4 =>
      ValveView(InitialTable()[i].name, InitialTable()[i].switchTime, false, Closed, now, levels[i]))
  }

  /** The names of the valves, in collection order. */
  function Names(vs: seq<ValveView>): (ns: seq<string>)
    ensures |ns| == |vs|
    ensures forall i :: 0 <= i < |vs| ==> ns[i] == vs[i].name
  {
    seq(|vs|, i requires 0 <= i < |vs| => vs[i].name)
  }

  /** The position of the first name equal to `key`, or None when no name is. */
  function FirstMatch(names: seq<string>, key: string): (r: Option<nat>)
    ensures r.Some? ==> r.value < |names| && names[r.value] == key
    ensures r.Some? ==> forall j :: 0 <= j < r.value ==> names[j] != key
    ensures r.None? <==> forall j :: 0 <= j < |names| ==> names[j] != key
  {
    if names == [] then None
    else if names[0] == key then Some(0)
    else match FirstMatch(names[1..], key)
      case None => None
      case Some(k) => Some(k + 1)
  }

  /** No valve names a key that a valve earlier in the collection already carries. */
  lemma FirstMatchSkipsDuplicates(names: seq<string>, key: string, i: nat, j: nat)
    requires i < j < |names| && names[i] == key && names[j] == key
    ensures FirstMatch(names, key) != Some(j)
  {
  }

  /** Every valve ready to be ticked at `now`. */
  ghost predicate ClockedAt(vs: seq<ValveView>, now: nat) {
    forall i :: 0 <= i < |vs| ==> vs[i].stamp <= now
  }

  /** One entry of the bulk update document: the first valve with that name gets the demand and is
      ticked at once; a name no valve carries changes nothing. */
  function SetDemand(vs: seq<ValveView>, key: string, demand: bool, now: nat): (r: seq<ValveView>)
    requires ClockedAt(vs, now)
    ensures |r| == |vs| && Names(r) == Names(vs) && ClockedAt(r, now)
    ensures FirstMatch(Names(vs), key).None? ==> r == vs
    ensures forall i :: 0 <= i < |vs| && FirstMatch(Names(vs), key) != Some(i) ==> r[i] == vs[i]
    ensures FirstMatch(Names(vs), key).Some? ==>
      var i := FirstMatch(Names(vs), key).value;
      r[i] == Ticked(vs[i].(demandOpen := demand), now)
  {
    match FirstMatch(Names(vs), key)
    case None => vs
    case Some(i) => vs[i := Ticked(vs[i].(demandOpen := demand), now)]
  }

  /** Clock readings that never go back. */
  ghost predicate Ordered(ts: seq<nat>) {
    forall i, j :: 0 <= i < j < |ts| ==> ts[i] <= ts[j]
  }

  /** Every valve ready to be ticked at the first reading of `ts`, and so at every later one. */
  ghost predicate ClockedFrom(vs: seq<ValveView>, ts: seq<nat>) {
    Ordered(ts) && (ts != [] ==> ClockedAt(vs, ts[0]))
  }

  /** The whole bulk update document, entry by entry in document order; the tick of entry `k`
      reads the clock at `nows[k]`. */
  function BulkUpdate(vs: seq<ValveView>, updates: seq<(string, bool)>, nows: seq<nat>): (r: seq<ValveView>)
    requires |nows| == |updates| && ClockedFrom(vs, nows)
    ensures |r| == |vs| && Names(r) == Names(vs)
    ensures nows != [] ==> ClockedAt(r, nows[|nows| - 1])
    decreases |updates|
  {
    if updates == [] then vs
    else
      var ws := SetDemand(vs, updates[0].0, updates[0].1, nows[0]);
      assert |nows| > 1 ==> ClockedAt(ws, nows[1]);
      BulkUpdate(ws, updates[1..], nows[1..])
  }

  /** A valve that is not the first match of any key in the document keeps its demand, its state
      and its stopwatch: the update does not tick it. */
  lemma {:induction false} BulkUpdateLeavesOthers(vs: seq<ValveView>, updates: seq<(string, bool)>, nows: seq<nat>, i: nat)
    requires |nows| == |updates| && ClockedFrom(vs, nows) && i < |vs|
    requires forall k :: 0 <= k < |updates| ==> FirstMatch(Names(vs), updates[k].0) != Some(i)
    ensures BulkUpdate(vs, updates, nows)[i] == vs[i]
    decreases |updates|
  {
    if updates != [] {
      var ws := SetDemand(vs, updates[0].0, updates[0].1, nows[0]);
      assert ws[i] == vs[i];
      assert |nows| > 1 ==> ClockedAt(ws, nows[1]);
      BulkUpdateLeavesOthers(ws, updates[1..], nows[1..], i);
    }
  }

  /** A valve whose name an earlier valve already carries is never reached by the bulk update. */
  lemma BulkUpdateSkipsDuplicates(vs: seq<ValveView>, updates: seq<(string, bool)>, nows: seq<nat>, i: nat, j: nat)
    requires |nows| == |updates| && ClockedFrom(vs, nows) && i < j < |vs| && vs[i].name == vs[j].name
    ensures BulkUpdate(vs, updates, nows)[j] == vs[j]
  {
    forall k | 0 <= k < |updates|
      ensures FirstMatch(Names(vs), updates[k].0) != Some(j)
    {
      if vs[j].name == updates[k].0 {
        FirstMatchSkipsDuplicates(Names(vs), updates[k].0, i, j);
      }
    }
    BulkUpdateLeavesOthers(vs, updates, nows, j);
  }

  /** With the initial table, `{"valve 2": true}` starts opening valve 2 in the same call and
      leaves the other three closed. */
  lemma OpeningValveTwo(now: nat, levels: seq<bool>)
    requires |levels| == 4
    ensures var r := BulkUpdate(InitialViews(now, levels), [("valve 2", true)], [now]);
      && r[1].state == Opening && r[1].demandOpen
      && r[0].state == Closed && r[2].state == Closed && r[3].state == Closed
  {
    var vs := InitialViews(now, levels);
    assert Names(vs)[0] != "valve 2" && Names(vs)[1] == "valve 2";
    assert FirstMatch(Names(vs), "valve 2") == Some(1);
  }

  /** The control loop's pass: every valve ticked once, in collection order; the tick of valve `i`
      reads the clock at `nows[i]`. */
  function TickAll(vs: seq<ValveView>, nows: seq<nat>): (r: seq<ValveView>)
    requires |nows| == |vs| && forall i :: 0 <= i < |vs| ==> vs[i].stamp <= nows[i]
    ensures |r| == |vs| && forall i :: 0 <= i < |vs| ==> r[i].stamp <= nows[i]
  {
    seq(|vs|, i requires 0 <= i < |vs| => Ticked(vs[i], nows[i]))
  }

  /** After a pass of the control loop, every valve outside `Error` reports the direction its relay
      was commanded to, and no valve skipped a moving state. */
  lemma TickAllAgrees(vs: seq<ValveView>, nows: seq<nat>, i: nat)
    requires |nows| == |vs| && (forall j :: 0 <= j < |vs| ==> vs[j].stamp <= nows[j]) && i < |vs|
    ensures var r := TickAll(vs, nows);
      && r[i].level == vs[i].demandOpen
      && (vs[i].state != Error ==> (HeadsOpen(r[i].state) <==> r[i].level))
      && (r[i].state == vs[i].state || Move(vs[i].state, r[i].state))
  {
  }

  /** The configuration document at start-up: entry `idx` configures valve `idx`; a missing entry
      (short or absent file) has no keys. */
  function EntryAt(configs: seq<ConfigPatch>, idx: nat): (p: ConfigPatch)
    ensures idx >= |configs| ==> p == NoKeys
    ensures idx < |configs| ==> p == configs[idx]
  {
    if idx < |configs| then configs[idx] else NoKeys
  }

  /** The firmware's valve collection. The vector is never resized; its valves are updated in place. */
  class Controller {
    const valves: seq<Valve>

    /** Every valve is its own object with its own stopwatch and its own relay. */
    ghost predicate Valid() {
      forall i, j :: 0 <= i < j < |valves| ==>
        valves[i] != valves[j] && valves[i].state != valves[j].state && valves[i].output != valves[j].output
    }

    /** The objects the collection's operations may change. */
    ghost function Repr(): set<object> {
      (set i | 0 <= i < |valves| :: valves[i] as object)
      + (set i | 0 <= i < |valves| :: valves[i].state as object)
      + (set i | 0 <= i < |valves| :: valves[i].output as object)
    }

    /** The observable fields of every valve, in order. */
    ghost function Views(): (vs: seq<ValveView>)
      reads Repr()
      ensures |vs| == |valves|
      ensures forall i :: 0 <= i < |valves| ==> vs[i] == valves[i].View()
    {
      seq(|valves|, i requires 0 <= i < |valves| reads Repr() => valves[i].View())
    }

    /** The start-up collection: the initial table, closed and not demanded open, each valve on a
        relay of its own (modelled as starting off). */
    constructor (now: nat)
      ensures Valid() && |valves| == 4
      ensures forall i :: 0 <= i < 4 ==> fresh(valves[i]) && fresh(valves[i].state) && fresh(valves[i].output)
      ensures Views() == InitialViews(now, [false, false, false, false])
    {
      var r1 := new BinaryOutput(false);
      var r2 := new BinaryOutput(false);
      var r3 := new BinaryOutput(false);
      var r4 := new BinaryOutput(false);
      var v1 := new Valve(r1, now, "valve 1", DefaultSwitchTime);
      var v2 := new Valve(r2, now, "valve 2", DefaultSwitchTime);
      var v3 := new Valve(r3, now, "valve 3", DefaultSwitchTime);
      var v4 := new Valve(r4, now, "valve 4", DefaultSwitchTime);
      valves := [v1, v2, v3, v4];
      new;
      ghost var init := InitialViews(now, [false, false, false, false]);
      assert v1.state != v2.state && v1.state != v3.state && v1.state != v4.state;
      assert v2.state != v3.state && v2.state != v4.state && v3.state != v4.state;
      assert Valid();
      assert v1.View() == init[0] && v2.View() == init[1];
      assert v3.View() == init[2] && v4.View() == init[3];
    }

    /** The `/config/valves/N` bounds check: a position past the end is rejected before any access. */
    function ValveAt(idx: nat): (r: Option<Valve>)
      ensures r.Some? <==> idx < |valves|
      ensures r.Some? ==> r.value == valves[idx]
    {
      if idx >= |valves| then None else Some(valves[idx])
    }

    /** The inner loop of the bulk update: the first valve, in collection order, carrying `key`. */
    method IndexOfName(key: string) returns (r: Option<nat>)
      ensures r.Some? ==> r.value < |valves| && valves[r.value].name == key
      ensures r.Some? ==> forall j :: 0 <= j < r.value ==> valves[j].name != key
      ensures r.None? ==> forall j :: 0 <= j < |valves| ==> valves[j].name != key
    {
      var i := 0;
      while i < |valves|
        invariant 0 <= i <= |valves|
        invariant forall j :: 0 <= j < i ==> valves[j].name != key
      {
        if valves[i].name == key {
          return Some(i);
        }
        i := i + 1;
      }
      return None;
    }

    /** One entry of the `/valves` update: the first valve with name `key` gets the demand and
        is ticked at once; every other valve is left as it was. */
    method SetDemandByName(key: string, demand: bool, now: nat)
      requires Valid() && ClockedAt(Views(), now)
      modifies Repr()
      ensures Views() == SetDemand(old(Views()), key, demand, now)
    {
      ghost var before := Views();
      var found := IndexOfName(key);
      assert found == FirstMatch(Names(before), key);
      if found.Some? {
        var i := found.value;
        var valve := valves[i];
        valve.demandOpen := demand;
        valve.Tick(now);
        assert forall j :: 0 <= j < |valves| && j != i ==> valves[j].View() == before[j];
        assert Views() == before[i := Ticked(before[i].(demandOpen := demand), now)];
      }
    }

    /** The `/valves` update: the entries of the document in order; entry `k` is handled when the
        clock reads `nows[k]`. */
    method UpdateDemands(updates: seq<(string, bool)>, nows: seq<nat>)
      requires Valid() && |nows| == |updates| && ClockedFrom(Views(), nows)
      modifies Repr()
      ensures Views() == BulkUpdate(old(Views()), updates, nows)
    {
      var k := 0;
      while k < |updates|
        invariant 0 <= k <= |updates|
        invariant k < |updates| ==> ClockedAt(Views(), nows[k])
        invariant BulkUpdate(old(Views()), updates, nows) == BulkUpdate(Views(), updates[k..], nows[k..])
      {
        ghost var before := Views();
        SetDemandByName(updates[k].0, updates[k].1, nows[k]);
        assert Views() == SetDemand(before, updates[k].0, updates[k].1, nows[k]);
        assert updates[k..][1..] == updates[k + 1..];
        assert nows[k..][1..] == nows[k + 1..];
        k := k + 1;
      }
    }

    /** `setup`: valve `idx` is configured from entry `idx` of the stored document, for every
        valve; states, stopwatches and demands are untouched. */
    method LoadConfig(configs: seq<ConfigPatch>)
      requires Valid()
      modifies valves
      ensures forall i :: 0 <= i < |valves| ==>
        valves[i].GetConfig() == Merge(old(valves[i].GetConfig()), EntryAt(configs, i))
      ensures forall i :: 0 <= i < |valves| ==> valves[i].demandOpen == old(valves[i].demandOpen)
    {
      var idx := 0;
      while idx < |valves|
        invariant 0 <= idx <= |valves|
        invariant forall i :: 0 <= i < idx ==>
          valves[i].GetConfig() == Merge(old(valves[i].GetConfig()), EntryAt(configs, i))
        invariant forall i :: idx <= i < |valves| ==> valves[i].GetConfig() == old(valves[i].GetConfig())
        invariant forall i :: 0 <= i < |valves| ==> valves[i].demandOpen == old(valves[i].demandOpen)
      {
        var _ := valves[idx].SetConfig(EntryAt(configs, idx));
        idx := idx + 1;
      }
    }

    /** `loop`: every valve ticked once, in collection order; valve `i` is ticked when the clock
        reads `nows[i]`. */
    method TickEach(nows: seq<nat>)
      requires Valid() && |nows| == |valves|
      requires forall i :: 0 <= i < |valves| ==> valves[i].state.stamp <= nows[i]
      modifies Repr()
      ensures Views() == TickAll(old(Views()), nows)
    {
      var i := 0;
      while i < |valves|
        invariant 0 <= i <= |valves|
        invariant forall j :: 0 <= j < i ==> valves[j].View() == Ticked(old(valves[j].View()), nows[j])
        invariant forall j :: i <= j < |valves| ==> valves[j].View() == old(valves[j].View())
      {
        valves[i].Tick(nows[i]);
        i := i + 1;
      }
    }
  }
}
