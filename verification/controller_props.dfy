/**
 Properties of the light controller: what a connection attempt leaves
 behind, what a refresh does, the invariants every transition keeps, and the
 defect of the shipped names table together with its correction.
 */
module ControllerProps {
  import opened Common
  import opened Controller

  /** Anything that can happen to a running controller. */
  datatype Input =
    | StatusUpdate(status: Status, logAction: bool)  // a Redis status or a menu choice
    | ConnectRequest(attempt: Attempt)                // reconnect timer or the reconnect button
    | RefreshTick(attempt: Attempt)                   // the state-maintenance timer
    | DeviceStops                                     // the attached light stops answering

  function Apply(names: map<Status, string>, c: Controller, input: Input): Controller
  {
    match input
    case StatusUpdate(s, logAction) => SetStatus(names, c, s, logAction).state
    case ConnectRequest(a) => TryConnect(names, c, a).state
    case RefreshTick(a) => Refresh(names, c, a).state
    case DeviceStops =>
      if c.light.Some? then c.(light := Some(c.light.value.(responsive := false))) else c
  }

  function Run(names: map<Status, string>, c: Controller, inputs: seq<Input>): Controller
    decreases |inputs|
  {
    if inputs == [] then c else Run(names, Apply(names, c, inputs[0]), inputs[1..])
  }

  /** Turning the light off a second time changes nothing further: the
      state after one `turn_off` is the state after two. */
  lemma TurnOffIdempotent(names: map<Status, string>, c: Controller)
    requires "off" in names
    ensures TurnOff(names, TurnOff(names, c).state).state == TurnOff(names, c).state
    ensures TurnOff(names, c).state.light == c.light
  {
  }

  // ---------------------------------------------------------------------
  // Connecting

  /** A found light with status `'off'`: attached, nothing re-applied. */
  lemma FoundWhileOff(names: map<Status, string>, c: Controller, d: Device, earlier: seq<Effect>)
    requires c.light.None? && c.currentStatus == "off"
    requires NoWrites(earlier) && !Emits(earlier, ColorChanged("off"))
    ensures var r := Connect(names, c, Found(d));
      NoWrites(earlier + r.effects) && !Emits(earlier + r.effects, ColorChanged("off"))
  {
    var announced := [Logged(FoundLight(d.name))]
      + (if c.simulationMode then [Logged(ExitedSimulation)] else [])
      + [DeviceStatusChanged(true, d.name)];
    assert earlier + Connect(names, c, Found(d)).effects == earlier + announced;
  }

  /** A found light with any other nameable status has it re-applied. */
  lemma FoundReapplies(names: map<Status, string>, c: Controller, d: Device, earlier: seq<Effect>)
    requires c.light.None? && Valid(c) && c.currentStatus in names && c.currentStatus != "off"
    ensures var effects := earlier + Connect(names, c, Found(d)).effects;
      && Emits(effects, ColorChanged(c.currentStatus))
      && (d.responsive ==> Emits(effects, Wrote(CommandFor(c.currentStatus))))
  {
    var announced := earlier + [Logged(FoundLight(d.name))]
      + (if c.simulationMode then [Logged(ExitedSimulation)] else [])
      + [DeviceStatusChanged(true, d.name)];
    var attached := c.(light := Some(d), reconnectActive := false, simulationMode := false);
    var applied := SetStatus(names, attached, c.currentStatus, true);
    var effects := earlier + Connect(names, c, Found(d)).effects;
    assert effects == announced + applied.effects;
    assert effects[|announced|] == ColorChanged(c.currentStatus);
    if d.responsive {
      SetStatusWritesExactly(names, attached, c.currentStatus, true);
      var w := Wrote(CommandFor(c.currentStatus));
      var i :| 0 <= i < |applied.effects| && applied.effects[i] == w;
      assert effects[|announced| + i] == w;
    }
  }

  /**
   A search that finds a light leaves the controller attached to it, out of
   simulation and with the reconnect timer stopped, and re-applies the
   current status exactly when that status is not `'off'`.
   */
  lemma ConnectFoundAttaches(names: map<Status, string>, c: Controller, d: Device)
    requires c.light.None? || !c.light.value.responsive
    requires Valid(c) && c.currentStatus in names
    ensures var r := TryConnect(names, c, Found(d));
      && r.state.light == Some(d)
      && !r.state.simulationMode
      && !r.state.reconnectActive
      && r.state.currentStatus == c.currentStatus
      && (Emits(r.effects, ColorChanged(c.currentStatus)) <==> c.currentStatus != "off")
      && (d.responsive ==>
            (Emits(r.effects, Wrote(CommandFor(c.currentStatus))) <==> c.currentStatus != "off"))
      && (c.currentStatus == "off" ==> NoWrites(r.effects))
  {
    var lost := if c.light.Some? then [Logged(LostConnection)] else [];
    if c.currentStatus == "off" {
      FoundWhileOff(names, c.(light := None), d, lost);
    } else {
      FoundReapplies(names, c.(light := None), d, lost);
    }
  }

  /** The failure branches write nothing and report the light disconnected. */
  lemma FallbackSilent(c: Controller, earlier: seq<Effect>, before: seq<Effect>, simulationLog: LogEntry)
    requires NoWrites(earlier + before)
    ensures var effects := earlier + Fallback(c, before, simulationLog).effects;
      NoWrites(effects) && Emits(effects, DeviceStatusChanged(false, ""))
  {
    var entering := !c.simulationMode && c.allowSimulation;
    var head := earlier + before + (if entering then [Logged(simulationLog)] else []);
    var tail := if c.reconnectActive then [] else [Logged(WillRetry)];
    assert earlier + Fallback(c, before, simulationLog).effects == head + [DeviceStatusChanged(false, "")] + tail;
    assert (head + [DeviceStatusChanged(false, "")] + tail)[|head|] == DeviceStatusChanged(false, "");
  }

  /**
   A search that finds nothing leaves no light and the reconnect timer
   running; simulation mode is switched on only when it is allowed, and
   nothing is written.
   */
  lemma ConnectMissLeavesRetrying(names: map<Status, string>, c: Controller, attempt: Attempt)
    requires c.light.None? || !c.light.value.responsive
    requires !attempt.Found?
    ensures var r := TryConnect(names, c, attempt);
      && r.state.light.None?
      && r.state.reconnectActive
      && r.state.simulationMode == (c.simulationMode || c.allowSimulation)
      && (!c.allowSimulation ==> r.state.simulationMode == c.simulationMode)
      && r.state.currentStatus == c.currentStatus
      && NoWrites(r.effects)
      && Emits(r.effects, DeviceStatusChanged(false, ""))
  {
    var lost := if c.light.Some? then [Logged(LostConnection)] else [];
    if attempt.Failed? {
      FallbackSilent(c.(light := None), lost, [Logged(ConnectError)], ErrorSimulation);
    } else {
      FallbackSilent(c.(light := None), lost, [], UnavailableSimulation);
    }
  }

  // ---------------------------------------------------------------------
  // Refreshing

  /**
   A refresh of an answering light re-applies the current status silently:
   the state is unchanged, nothing is logged, and outside simulation the
   light receives the current status again.
   */
  lemma RefreshReapplies(names: map<Status, string>, c: Controller, attempt: Attempt)
    requires Valid(c)
    requires c.light.Some? && c.light.value.responsive && c.currentStatus != "off"
    ensures var r := Refresh(names, c, attempt);
      && r.state == c
      && (forall i :: 0 <= i < |r.effects| ==> !r.effects[i].Logged?)
      && (!c.simulationMode <==> Emits(r.effects, Wrote(CommandFor(c.currentStatus))))
  {
    SetStatusWritesExactly(names, c, c.currentStatus, false);
  }

  /**
   A refresh that finds the light silent drops it and searches again: the
   result is attached to the new light when one is found and retrying
   otherwise, whenever the current status has a name.
   */
  lemma RefreshDropsSilentLight(names: map<Status, string>, c: Controller, attempt: Attempt)
    requires Valid(c) && c.currentStatus in names
    requires c.light.Some? && !c.light.value.responsive && c.currentStatus != "off"
    ensures var r := Refresh(names, c, attempt);
      && |r.effects| > 0 && r.effects[0] == Logged(LostDuringRefresh)
      && (attempt.Found? ==> r.state.light == Some(attempt.device) && !r.state.reconnectActive)
      && (!attempt.Found? ==> r.state.light.None? && r.state.reconnectActive)
  {
  }

  // ---------------------------------------------------------------------
  // Invariants

  /** One input keeps the status valid. */
  lemma ApplyKeepsValid(names: map<Status, string>, c: Controller, input: Input)
    requires Valid(c)
    ensures Valid(Apply(names, c, input))
  {
  }

  /** Every reachable status has a colour, whatever names table is used. */
  lemma {:induction false} RunKeepsValid(names: map<Status, string>, c: Controller, inputs: seq<Input>)
    requires Valid(c)
    ensures Valid(Run(names, c, inputs))
    decreases |inputs|
  {
    if inputs != [] {
      ApplyKeepsValid(names, c, inputs[0]);
      RunKeepsValid(names, Apply(names, c, inputs[0]), inputs[1..]);
    }
  }

  /** One input keeps the connection invariant when every status can be named. */
  lemma ApplyKeepsCoherent(names: map<Status, string>, c: Controller, input: Input)
    requires NamesAll(names) && Coherent(c)
    ensures Coherent(Apply(names, c, input))
  {
  }

  /**
   With a names table that names every status, an attached light never
   coexists with simulation mode or a running reconnect timer, and a missing
   light always has the timer running.
   */
  lemma {:induction false} RunKeepsCoherent(names: map<Status, string>, c: Controller, inputs: seq<Input>)
    requires NamesAll(names) && Coherent(c)
    ensures Coherent(Run(names, c, inputs))
    decreases |inputs|
  {
    if inputs != [] {
      ApplyKeepsCoherent(names, c, inputs[0]);
      RunKeepsCoherent(names, Apply(names, c, inputs[0]), inputs[1..]);
    }
  }

  /** A new controller is valid and coherent. */
  lemma InitCoherent(names: map<Status, string>, allowSimulation: bool, attempt: Attempt)
    ensures Valid(Init(names, allowSimulation, attempt).state)
    ensures Coherent(Init(names, allowSimulation, attempt).state)
    ensures Init(names, allowSimulation, attempt).state.currentStatus == "off"
    ensures NoWrites(Init(names, allowSimulation, attempt).effects)
  {
  }

  // ---------------------------------------------------------------------
  // The `'default'` status

  /**
   As shipped, `'default'` passes the colour check but has no name: a logged
   `set_status('default')` records the status and signals it, then raises
   before anything reaches the light.
   */
  lemma DefaultStatusFaults(c: Controller)
    requires c.light.Some? && c.light.value.responsive && !c.simulationMode
    ensures var r := SetStatus(ColorNames, c, "default", true);
      && r.fault == Some("default")
      && r.state.currentStatus == "default"
      && r.effects == [ColorChanged("default")]
      && NoWrites(r.effects)
  {
  }

  /**
   The raised error escapes into the connection attempt's generic error
   branch: after a simulated `'default'`, finding a light leaves it attached
   while the controller stays in simulation with the reconnect timer running,
   so later statuses are never written to it.
   */
  lemma DefaultBreaksCoherence()
    ensures var d := Device("Omega", true);
      var start := Init(ColorNames, true, Unavailable).state;
      var shown := SetStatus(ColorNames, start, "default", true).state;
      var found := TryConnect(ColorNames, shown, Found(d)).state;
      && Coherent(start)
      && found.light == Some(d)
      && found.simulationMode
      && found.reconnectActive
      && !Coherent(found)
      && NoWrites(SetStatus(ColorNames, found, "alert", true).effects)
  {
  }

  /** The corrected table names every status the controller accepts. */
  lemma FixedNamesAll()
    ensures NamesAll(FixedColorNames)
    ensures FixedColorNames["default"] == ColorNames["normal"]
    ensures forall s :: s in ColorNames ==> s in FixedColorNames && FixedColorNames[s] == ColorNames[s]
  {
  }

  /**
   With the corrected table, `set_status` never raises, and it agrees with
   the shipped behaviour on every status except `'default'`.
   */
  lemma FixedSetStatusNeverFaults(c: Controller, status: Status, logAction: bool)
    ensures SetStatus(FixedColorNames, c, status, logAction).fault.None?
    ensures Normalize(status) != "default" ==>
      SetStatus(FixedColorNames, c, status, logAction) == SetStatus(ColorNames, c, status, logAction)
  {
  }

  /** With the corrected table, a running controller stays coherent. */
  lemma FixedRunCoherent(allowSimulation: bool, attempt: Attempt, inputs: seq<Input>)
    ensures var start := Init(FixedColorNames, allowSimulation, attempt).state;
      Coherent(Run(FixedColorNames, start, inputs)) && Valid(Run(FixedColorNames, start, inputs))
  {
    FixedNamesAll();
    var start := Init(FixedColorNames, allowSimulation, attempt).state;
    InitCoherent(FixedColorNames, allowSimulation, attempt);
    RunKeepsCoherent(FixedColorNames, start, inputs);
    RunKeepsValid(FixedColorNames, start, inputs);
  }
}
