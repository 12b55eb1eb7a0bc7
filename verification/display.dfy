/**
 The display rules of the desktop application's main window: the tray icon
 colour, the status, connection and device labels, the shutdown sequence and
 the window-close decision.  Widgets are reduced to the text and colour they
 are given.
 */
module Display {
  import opened Common
  import opened Controller
  import Worker

  /** The text colours the labels use. */
  datatype Tint = Green | Orange | Red

  datatype Label = Label(text: string, tint: Tint)

  /** `update_tray_icon`: an unknown status is shown as `'normal'`. */
  function TrayColor(status: Status): Rgb
  {
    ColorMap[Normalize(status)]
  }

  /**
   The tray icon shows the colour the light was sent: for every status the
   controller accepts and writes, logged or not, the icon colour equals the
   colour of the write.
   */
  lemma TrayMatchesLight(names: map<Status, string>, c: Controller, status: Status, logAction: bool)
    ensures var r := SetStatus(names, c, status, logAction);
      forall i :: 0 <= i < |r.effects| && r.effects[i].Wrote? ==>
        r.effects[i].cmd.color == TrayColor(status)
    ensures status !in ColorMap ==> TrayColor(status) == Rgb(0, 255, 0)
  {
  }

  /** What a status update does to the label's background: an unknown
      status leaves the previous style in place. */
  datatype Background = Unchanged | Cleared | Filled(color: Rgb)

  /** What `update_status_display` shows for a signalled status. */
  datatype StatusView = StatusView(text: string, background: Background, tray: Rgb)

  /**
   `update_status_display`: the label names the status (or says `Unknown`);
   its background becomes the status colour, is cleared for `'off'`, and is
   left as it was for a status without a colour; the tray icon follows.
   */
  function StatusDisplay(names: map<Status, string>, status: Status): (v: StatusView)
    ensures v.background.Unchanged? <==> status !in ColorMap
    ensures v.background.Cleared? <==> status == "off"
    ensures v.background.Filled? ==> v.background.color == ColorMap[status] && v.background.color == v.tray
    ensures v.tray == TrayColor(status)
    ensures status in names ==> v.text == "Status: " + names[status]
    ensures status !in names ==> v.text == "Status: Unknown"
  {
    StatusView(
      "Status: " + (if status in names then names[status] else "Unknown"),
      if status !in ColorMap then Unchanged
      else if status == "off" then Cleared
      else Filled(ColorMap[status]),
      TrayColor(status))
  }

  /**
   Every status the controller signals has a colour, so the status label is
   never left with a stale background: it shows the colour that was written
   to the light (cleared for `'off'`), as does the tray icon.
   */
  lemma SignalledStatusShown(names: map<Status, string>, c: Controller, status: Status, logAction: bool)
    requires c.light.Some? || c.simulationMode
    ensures var r := SetStatus(names, c, status, logAction);
      var v := StatusDisplay(names, r.effects[0].status);
      && !v.background.Unchanged?
      && (v.background.Cleared? <==> Normalize(status) == "off")
      && (forall i :: 0 <= i < |r.effects| && r.effects[i].Wrote? ==>
            r.effects[i].cmd.color == v.tray
            && (v.background.Filled? ==> r.effects[i].cmd.color == v.background.color))
  {
  }

  /** As shipped, the `'default'` status is shown green but called `Unknown`. */
  lemma DefaultShownUnknown()
    ensures StatusDisplay(ColorNames, "default") == StatusView("Status: Unknown", Filled(Rgb(0, 255, 0)), Rgb(0, 255, 0))
    ensures StatusDisplay(FixedColorNames, "default").text == "Status: Green (Normal)"
  {
  }

  /** `update_connection_status`: only `"connected"` is shown as connected. */
  function ConnectionLabel(status: string): (l: Label)
    ensures l.tint == Green <==> status == "connected"
    ensures l.tint == Green || l.tint == Red
  {
    if status == "connected" then Label("Connection: Connected", Green)
    else Label("Connection: Disconnected", Red)
  }

  /** The string the worker's connection signal carries. */
  function ConnectionSignal(c: Worker.Connection): string
  {
    match c
    case Connected => "connected"
    case Disconnected => "disconnected"
  }

  /** The connection label is green exactly when the worker connected. */
  lemma ConnectionLabelTracksWorker(token: Option<string>, handshakeOk: bool)
    ensures ConnectionLabel(ConnectionSignal(Worker.ConnectToRedis(token, handshakeOk))).tint == Green
      <==> Worker.HasToken(token) && handshakeOk
  {
  }

  /**
   `update_device_status`: nothing happens before the label exists; a
   connected device is shown by name in green; otherwise the label says
   simulation (orange) or disconnected (red) according to the controller.
   */
  function DeviceLabel(labelExists: bool, connected: bool, deviceName: string, simulationMode: bool): (r: Option<Label>)
    ensures r.Some? <==> labelExists
    ensures r.Some? ==> (r.value.tint == Green <==> connected)
    ensures r.Some? ==> (r.value.tint == Orange <==> !connected && simulationMode)
    ensures r.Some? ==> (r.value.tint == Red <==> !connected && !simulationMode)
    ensures r.Some? && connected ==> r.value.text == "Device: " + deviceName
  {
    if !labelExists then None
    else if connected then Some(Label("Device: " + deviceName, Green))
    else if simulationMode then Some(Label("Device: Simulation Mode", Orange))
    else Some(Label("Device: Disconnected", Red))
  }

  /** The device report the window makes when it is built. */
  function InitialDeviceReport(c: Controller): (bool, string)
  {
    if c.light.Some? then (true, c.light.value.name)
    else if c.simulationMode then (false, "Simulation Mode")
    else (false, "")
  }

  /** The device label after a report, shown while the controller is in state `c`. */
  function ReportedLabel(report: (bool, string), c: Controller): Label
  {
    DeviceLabel(true, report.0, report.1, c.simulationMode).value
  }

  /** Green exactly when a light is attached, orange exactly in simulation
      without one, red otherwise. */
  predicate LabelTruthful(shown: Label, c: Controller) {
    && (shown.tint == Green <==> c.light.Some?)
    && (shown.tint == Orange <==> c.light.None? && c.simulationMode)
    && (shown.tint == Red <==> c.light.None? && !c.simulationMode)
  }

  /** The newest `device_status_changed` signal among the effects. */
  function LastDeviceReport(effects: seq<Effect>): Option<(bool, string)>
  {
    if effects == [] then None
    else if effects[|effects| - 1].DeviceStatusChanged? then
      Some((effects[|effects| - 1].connected, effects[|effects| - 1].name))
    else LastDeviceReport(effects[..|effects| - 1])
  }

  lemma LastDeviceReportAppend(prefix: seq<Effect>, suffix: seq<Effect>)
    requires forall i :: 0 <= i < |suffix| ==> !suffix[i].DeviceStatusChanged?
    ensures LastDeviceReport(prefix + suffix) == LastDeviceReport(prefix)
    decreases |suffix|
  {
    if suffix != [] {
      var all := prefix + suffix;
      assert all[|all| - 1] == suffix[|suffix| - 1];
      assert all[..|all| - 1] == prefix + suffix[..|suffix| - 1];
      LastDeviceReportAppend(prefix, suffix[..|suffix| - 1]);
    } else {
      assert prefix + suffix == prefix;
    }
  }

  /** The failure branches of a connection attempt end by reporting the
      light disconnected. */
  lemma FallbackReportsDisconnected(c: Controller, before: seq<Effect>, simulationLog: LogEntry, earlier: seq<Effect>)
    ensures LastDeviceReport(earlier + Fallback(c, before, simulationLog).effects) == Some((false, ""))
  {
  }

  /** A search that finds a light ends by reporting it connected, when
      the current status has a name. */
  lemma FoundReportsConnected(names: map<Status, string>, c: Controller, d: Device, earlier: seq<Effect>)
    requires Valid(c) && c.currentStatus in names && c.light.None?
    ensures LastDeviceReport(earlier + Connect(names, c, Found(d)).effects) == Some((true, d.name))
  {
    var announced := earlier + [Logged(FoundLight(d.name))]
      + (if c.simulationMode then [Logged(ExitedSimulation)] else [])
      + [DeviceStatusChanged(true, d.name)];
    var attached := c.(light := Some(d), reconnectActive := false, simulationMode := false);
    if c.currentStatus == "off" {
      assert earlier + Connect(names, c, Found(d)).effects == announced;
    } else {
      var applied := SetStatus(names, attached, c.currentStatus, true);
      assert earlier + Connect(names, c, Found(d)).effects == announced + applied.effects;
      LastDeviceReportAppend(announced, applied.effects);
    }
  }

  /** When the current status has a name, the last report of a search says
      connected exactly when the search attached a light. */
  lemma ConnectReportsAttachment(names: map<Status, string>, c: Controller, attempt: Attempt, earlier: seq<Effect>)
    requires Valid(c) && c.currentStatus in names && c.light.None?
    ensures var r := Connect(names, c, attempt);
      LastDeviceReport(earlier + r.effects).Some?
      && (LastDeviceReport(earlier + r.effects).value.0 <==> r.state.light.Some?)
  {
    match attempt
    case Found(d) =>
      FoundReportsConnected(names, c, d, earlier);
    case Unavailable =>
      FallbackReportsDisconnected(c, [], UnavailableSimulation, earlier);
    case Failed =>
      FallbackReportsDisconnected(c, [Logged(ConnectError)], ErrorSimulation, earlier);
  }

  /**
   After a connection attempt made while the current status has a name,
   the device label tells the truth: green exactly when a light is attached,
   orange exactly in simulation without one, red otherwise.
   */
  lemma DeviceLabelAfterConnect(names: map<Status, string>, c: Controller, attempt: Attempt)
    requires Valid(c) && c.currentStatus in names
    ensures var r := TryConnect(names, c, attempt);
      LastDeviceReport(r.effects).Some?
      && LabelTruthful(ReportedLabel(LastDeviceReport(r.effects).value, r.state), r.state)
  {
    if !(c.light.Some? && c.light.value.responsive) {
      var lost := if c.light.Some? then [Logged(LostConnection)] else [];
      ConnectReportsAttachment(names, c.(light := None), attempt, lost);
    }
  }

  /** The window's initial device label agrees with the controller in the same way. */
  lemma InitialLabelTruthful(c: Controller)
    ensures LabelTruthful(ReportedLabel(InitialDeviceReport(c), c), c)
  {
  }

  datatype CloseAction = Accept | HideToTray

  /** `closeEvent`: the window closes only while the application quits;
      otherwise it hides to the tray. */
  function CloseEvent(quitting: bool): (a: CloseAction)
    ensures a == Accept <==> quitting
  {
    if quitting then Accept else HideToTray
  }

  /** The state `on_exit` leaves: the controller and whether quitting is set. */
  datatype Exit = Exit(controller: Step, quitting: bool)

  /**
   `on_exit`: stop the reconnect timer, turn the light off, and mark the
   application as quitting.
   */
  function OnExit(names: map<Status, string>, c: Controller): (x: Exit)
    requires "off" in names
    ensures x.quitting
    ensures !x.controller.state.reconnectActive
    ensures x.controller.state.light == c.light
    ensures c.light.Some? || c.simulationMode ==> x.controller.state.currentStatus == "off"
    ensures c.light.Some? && c.light.value.responsive && !c.simulationMode ==>
      Emits(x.controller.effects, Wrote(Command(Rgb(0, 0, 0), RingOff, 0)))
  {
    Exit(TurnOff(names, c.(reconnectActive := false)), true)
  }

  /** Closing the window after `on_exit` closes it; before, it only hides. */
  lemma ExitThenCloseAccepts(names: map<Status, string>, c: Controller)
    requires "off" in names
    ensures CloseEvent(OnExit(names, c).quitting) == Accept
  {
  }
}
