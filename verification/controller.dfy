/**
 The desktop application's light controller: the status tables, the
 status-setting rule, device connection with simulation fallback, and the
 periodic refresh.  The controller is an immutable value; every transition
 returns the next controller together with the signals and device writes it
 produced, in order.

 The table of display names is a parameter of the transitions: `ColorNames`
 is the table as the application ships it, `FixedColorNames` the same table
 with the backward-compatible `'default'` status named, so that both the
 behaviour as written and the corrected behaviour come from one definition.
 */
module Controller {
  import opened Common

  /** Colour of every status the controller accepts. */
  const ColorMap: map<Status, Rgb> := map[
    "alert" := Rgb(255, 0, 0),
    "alert-acked" := Rgb(255, 140, 0),
    "warning" := Rgb(255, 255, 0),
    "error" := Rgb(255, 0, 255),
    "normal" := Rgb(0, 255, 0),
    "default" := Rgb(0, 255, 0),
    "off" := Rgb(0, 0, 0)
  ]

  /** Display names, as shipped: `'default'` has no entry. */
  const ColorNames: map<Status, string> := map[
    "alert" := "Red (Alert)",
    "alert-acked" := "Orange (Alert-Acked)",
    "warning" := "Yellow (Warning)",
    "error" := "Purple (Error)",
    "normal" := "Green (Normal)",
    "off" := "Off"
  ]

  /** Display names with the `'default'` alias named like `'normal'`. */
  const FixedColorNames: map<Status, string> := ColorNames["default" := "Green (Normal)"]

  /** A names table under which the log line of `SetStatus` can never fail. */
  predicate NamesAll(names: map<Status, string>) {
    ColorMap.Keys <= names.Keys
  }

  /** A status the controller does not know is treated as `'normal'`. */
  function Normalize(status: Status): (s: Status)
    ensures s in ColorMap
    ensures status in ColorMap ==> s == status
    ensures status !in ColorMap ==> s == "normal"
  {
    if status in ColorMap then status else "normal"
  }

  /** The write that shows `status` on the light. */
  function CommandFor(status: Status): Command
    requires status in ColorMap
  {
    var (ring, volume) := Ringer(status);
    Command(ColorMap[status], ring, volume)
  }

  /** The attached light, reduced to its name and whether it still answers. */
  datatype Device = Device(name: string, responsive: bool)

  datatype Controller = Controller(
    light: Option<Device>,
    simulationMode: bool,
    allowSimulation: bool,
    currentStatus: Status,
    reconnectActive: bool)

  datatype LogEntry =
    | NoDeviceNoSimulation
    | Changing(name: string)
    | ControlError
    | LostConnection
    | LostDuringRefresh
    | FoundLight(name: string)
    | ExitedSimulation
    | UnavailableSimulation
    | ConnectError
    | ErrorSimulation
    | WillRetry

  /** What a transition makes observable: log lines, the `color_changed` and
      `device_status_changed` signals, and writes the light accepted. */
  datatype Effect =
    | Logged(entry: LogEntry)
    | ColorChanged(status: Status)
    | DeviceStatusChanged(connected: bool, name: string)
    | Wrote(cmd: Command)

  /** A transition's outcome; `fault` holds the key of a failed table lookup
      when the transition ended by raising. */
  datatype Step = Step(state: Controller, effects: seq<Effect>, fault: Option<Status>)

  /** How a search for a light ends: it finds one, the driver reports that
      none is available, or some other error occurs. */
  datatype Attempt = Found(device: Device) | Unavailable | Failed

  predicate NoWrites(effects: seq<Effect>) {
    forall i :: 0 <= i < |effects| ==> !effects[i].Wrote?
  }

  predicate Emits(effects: seq<Effect>, e: Effect) {
    exists i :: 0 <= i < |effects| && effects[i] == e
  }

  /** The fields only the connection logic may change are equal. */
  predicate SameConnection(a: Controller, b: Controller) {
    a.light == b.light && a.simulationMode == b.simulationMode
    && a.allowSimulation == b.allowSimulation && a.reconnectActive == b.reconnectActive
  }

  /** The invariant that every status the controller holds has a colour. */
  predicate Valid(c: Controller) {
    c.currentStatus in ColorMap
  }

  /** The connection invariant: an attached light means neither simulation
      nor a pending reconnect; no light means a reconnect is pending. */
  predicate Coherent(c: Controller) {
    && (c.light.Some? ==> !c.simulationMode && !c.reconnectActive)
    && (c.light.None? ==> c.reconnectActive)
  }

  /**
   Sets the light to a status.  Without a light and outside simulation the
   request is dropped.  Otherwise the status is normalised and recorded and
   `color_changed` is emitted; when logging, the status's name is looked up,
   which raises for a status without a name; in simulation mode nothing is
   written; otherwise the light receives the colour with the alert ring, and a
   write the light does not answer is only logged.
   */
  function SetStatus(names: map<Status, string>, c: Controller, status: Status, logAction: bool): (r: Step)
    ensures SameConnection(r.state, c)
    ensures c.light.None? && !c.simulationMode ==>
      r.state == c && NoWrites(r.effects) && r.fault.None?
    ensures (c.light.Some? || c.simulationMode) ==>
      && r.state.currentStatus == Normalize(status)
      && |r.effects| > 0 && r.effects[0] == ColorChanged(r.state.currentStatus)
    ensures Valid(c) ==> Valid(r.state)
    ensures r.fault.Some? <==>
      (c.light.Some? || c.simulationMode) && logAction && Normalize(status) !in names
    ensures r.fault.Some? || c.simulationMode ==> NoWrites(r.effects)
    ensures forall i :: 0 <= i < |r.effects| && r.effects[i].Wrote? ==>
      && r.effects[i].cmd.color == ColorMap[r.state.currentStatus]
      && (r.effects[i].cmd.ring == OpenOffice <==> r.state.currentStatus == "alert")
      && (r.effects[i].cmd.volume == 7 <==> r.state.currentStatus == "alert")
      && (r.effects[i].cmd.volume == 0 <==> r.state.currentStatus != "alert")
  {
    if c.light.None? && !c.simulationMode then
      Step(c, if logAction then [Logged(NoDeviceNoSimulation)] else [], None)
    else
      var s := Normalize(status);
      var next := c.(currentStatus := s);
      var shown := [ColorChanged(s)];
      if logAction && s !in names then
        Step(next, shown, Some(s))
      else
        var told := shown + (if logAction then [Logged(Changing(names[s]))] else []);
        if c.simulationMode then
          Step(next, told, None)
        else if c.light.value.responsive then
          Step(next, told + [Wrote(CommandFor(s))], None)
        else
          Step(next, told + (if logAction then [Logged(ControlError)] else []), None)
  }

  /**
   The write of a status happens exactly when a light that answers is
   attached, simulation is off, and the name lookup did not raise.
   */
  lemma SetStatusWritesExactly(names: map<Status, string>, c: Controller, status: Status, logAction: bool)
    ensures Emits(SetStatus(names, c, status, logAction).effects, Wrote(CommandFor(Normalize(status)))) <==>
      c.light.Some? && c.light.value.responsive && !c.simulationMode
      && !(logAction && Normalize(status) !in names)
  {
    var r := SetStatus(names, c, status, logAction);
    if c.light.Some? && c.light.value.responsive && !c.simulationMode && !(logAction && Normalize(status) !in names) {
      assert r.effects[|r.effects| - 1] == Wrote(CommandFor(Normalize(status)));
    }
  }

  /** `turn_off`: the `'off'` status, logged. */
  function TurnOff(names: map<Status, string>, c: Controller): (r: Step)
    requires "off" in names
    ensures r.fault.None?
    ensures SameConnection(r.state, c)
    ensures c.light.Some? || c.simulationMode ==> r.state.currentStatus == "off"
    ensures c.light.Some? && c.light.value.responsive && !c.simulationMode ==>
      Emits(r.effects, Wrote(Command(Rgb(0, 0, 0), RingOff, 0)))
  {
    SetStatusWritesExactly(names, c, "off", true);
    SetStatus(names, c, "off", true)
  }

  /**
   The failure branches of a connection attempt: simulation mode is entered
   when allowed and not already on, the light is reported disconnected, and
   the reconnect timer is started unless it already runs.
   */
  function Fallback(c: Controller, before: seq<Effect>, simulationLog: LogEntry): Step
  {
    var entering := !c.simulationMode && c.allowSimulation;
    var next := c.(simulationMode := c.simulationMode || c.allowSimulation, reconnectActive := true);
    Step(next,
         before
         + (if entering then [Logged(simulationLog)] else [])
         + [DeviceStatusChanged(false, "")]
         + (if c.reconnectActive then [] else [Logged(WillRetry)]),
         None)
  }

  /** A search for a light made while none is attached. */
  function Connect(names: map<Status, string>, c: Controller, attempt: Attempt): Step
  {
    match attempt
    case Found(d) =>
      var attached := c.(light := Some(d), reconnectActive := false, simulationMode := false);
      var announced := [Logged(FoundLight(d.name))]
        + (if c.simulationMode then [Logged(ExitedSimulation)] else [])
        + [DeviceStatusChanged(true, d.name)];
      if c.currentStatus == "off" then
        Step(attached, announced, None)
      else
        var applied := SetStatus(names, attached, c.currentStatus, true);
        if applied.fault.None? then
          Step(applied.state, announced + applied.effects, None)
        else
          // the raised lookup error lands in the generic error branch
          Fallback(applied.state, announced + applied.effects + [Logged(ConnectError)], ErrorSimulation)
    case Unavailable =>
      Fallback(c, [], UnavailableSimulation)
    case Failed =>
      Fallback(c, [Logged(ConnectError)], ErrorSimulation)
  }

  /**
   `try_connect_device`: an attached light that still answers is reported
   connected and kept; an attached light that does not answer is dropped;
   then, with no light, a search is made.
   */
  function TryConnect(names: map<Status, string>, c: Controller, attempt: Attempt): (r: Step)
    ensures r.fault.None?
    ensures r.state.allowSimulation == c.allowSimulation
    ensures c.light.Some? && c.light.value.responsive ==>
      r.state == c && r.effects == [DeviceStatusChanged(true, c.light.value.name)]
  {
    if c.light.Some? && c.light.value.responsive then
      Step(c, [DeviceStatusChanged(true, c.light.value.name)], None)
    else
      var lost := if c.light.Some? then [Logged(LostConnection)] else [];
      var searched := Connect(names, c.(light := None), attempt);
      Step(searched.state, lost + searched.effects, None)
  }

  /**
   `refresh_light_state`: with a light and a status other than `'off'`, an
   answering light has its status re-applied without logging; a light that
   does not answer is dropped and a new search is made.
   */
  function Refresh(names: map<Status, string>, c: Controller, attempt: Attempt): (r: Step)
    ensures r.fault.None?
    ensures r.state.allowSimulation == c.allowSimulation
    ensures c.light.None? || c.currentStatus == "off" ==> r.state == c && r.effects == []
  {
    if c.light.None? || c.currentStatus == "off" then
      Step(c, [], None)
    else if c.light.value.responsive then
      var kept := SetStatus(names, c, c.currentStatus, false);
      Step(kept.state, kept.effects, None)
    else
      var retried := TryConnect(names, c.(light := None), attempt);
      Step(retried.state, [Logged(LostDuringRefresh)] + retried.effects, None)
  }

  /** A new controller: status `'off'`, no light, no simulation, no timer,
      followed by the first connection attempt. */
  function Init(names: map<Status, string>, allowSimulation: bool, attempt: Attempt): Step
  {
    TryConnect(names, Controller(None, false, allowSimulation, "off", false), attempt)
  }
}
