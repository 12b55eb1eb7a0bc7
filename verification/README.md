# Busylight controller — a verified functional model

This project models the logic that turns alert statuses into light
colours and ring tones. That logic appears in two programs:

- **The desktop controller (`busylight_app.py`).** Its `LightController` is a small state machine. Its state is: whether a light is attached, simulation mode, whether simulation is allowed, the current status, and whether the reconnect timer runs. Its transitions set a status, connect to a light, refresh the light and turn it off. Its `RedisWorker` turns the newest history entry and each channel message into a status. The main window's display rules show the state: the tray icon, the status, connection and device labels, the shutdown and the close decision.
- **The original command-line listener (`busylight_cli.py`).** Its `light_control` maps a status to a colour, with a green fallback. It also picks the ring tone and volume, and logs a change only when the colour changes. Its `redis_listener` reads the same history entry and messages.

Every transition is a pure function. The controller is an immutable value. Each transition returns the next controller, the signals it emitted, the log lines and the writes the light accepted, in order (`Controller.Step`). A write is recorded as a `Command(colour, ring, volume)`, so "nothing is written" is the statement that no `Wrote` effect occurs. The light itself is reduced to a name and a "still answers" flag. A search for a light ends in one of three outcomes (`Found`, `Unavailable` or `Failed`), and that outcome is a parameter.

Files:

- `common.dfy` holds the colours, ring tones, commands, message shapes and the shared ring rule.
- `controller.dfy` holds the status tables and the controller transitions.
- `controller_props.dfy` holds connection, refresh and invariant properties, and the `'default'` defect with its fix.
- `worker.dfy` holds the Redis worker's connection decision and message decoding.
- `display.dfy` holds the main window's display rules, shutdown and close.
- `cli.dfy` holds the command-line mapping and listener.
- `agreement.dfy` holds the lemmas that the two programs drive the light the same way.

The name table used by `set_status` is a parameter of the transitions. `Controller.ColorNames` is the table as shipped. `Controller.FixedColorNames` adds a name for `'default'` (see Findings). The connection and label properties need the current status to have a name in the table. The shipped table meets that for every status except `'default'`. The invariant over whole input sequences needs every status to be named (`NamesAll`), and the fixed table is such a table.

## Model

| member | source | states |
|---|---|---|
| `Common.Ringer` | busylight_app.py:542-549 | The ring tone is OpenOffice exactly for `'alert'` and the volume is 7 exactly for `'alert'`. Every other status is silent at volume 0. |
| `Controller.Normalize` | busylight_app.py:526-527 | The result is always a key of the colour table. A known status is kept. Any unknown status becomes `'normal'`. |
| `Controller.SetStatus` | busylight_app.py:519-569 | No light and no simulation: nothing changes and nothing is written. Otherwise the status recorded is the normalised one and `color_changed` is emitted first. The call raises exactly when logging is on and the status has no name. Simulation or a raise means no write. Every write carries the status colour, and rings (OpenOffice, volume 7) iff the status is `'alert'`. The connection fields never change. |
| `Controller.SetStatusWritesExactly` | busylight_app.py:521-566 | The status's command is written iff a live light is attached, simulation is off, and the name lookup does not raise. |
| `Controller.TurnOff` | busylight_app.py:571-572 | With a light or in simulation, the status becomes `'off'`. With a live light outside simulation, black is written with no ring. The call never raises. |
| `Controller.TryConnect` | busylight_app.py:450-464 | A light that still answers is kept, nothing else changes, and it is reported connected by name. A connection attempt never raises to its caller. |
| `Controller.Refresh` | busylight_app.py:434-448 | With no light, or with status `'off'`, the refresh changes nothing and emits nothing. It never raises. |
| `ControllerProps.TurnOffIdempotent` | busylight_app.py:571-572 | A second `turn_off` leaves the state exactly as the first left it, and turning off never touches the attached light. |
| `ControllerProps.ConnectFoundAttaches` | busylight_app.py:466-489 | When the current status has a name, finding a light attaches it, leaves simulation, stops the reconnect timer and keeps the current status. The status is re-applied (signalled, and written to a live light) exactly when it is not `'off'`. For `'off'` nothing is written. |
| `ControllerProps.ConnectMissLeavesRetrying` | busylight_app.py:491-517 | A failed search leaves no light, the reconnect timer running and the status unchanged. Simulation becomes `old or allowed`, so it is never switched on when not allowed. Nothing is written, and the light is reported disconnected. |
| `ControllerProps.RefreshReapplies` | busylight_app.py:436-442 | A refresh of a live light leaves the state unchanged and logs nothing. It re-writes the current status exactly when simulation is off. |
| `ControllerProps.RefreshDropsSilentLight` | busylight_app.py:444-448 | When the current status has a name, a refresh that finds the light silent first logs the loss. The result is attached to the newly found light with the timer stopped, or has no light with the timer running. |
| `ControllerProps.RunKeepsValid` | busylight_app.py:526-529 | After any sequence of status updates, connection requests, refreshes and light failures, the current status is a key of the colour table, for any name table. |
| `ControllerProps.InitCoherent` | busylight_app.py:410-432 | A new controller has status `'off'`, writes nothing, and satisfies both invariants. |
| `ControllerProps.RunKeepsCoherent` | busylight_app.py:450-517 | If every status can be named, any sequence of inputs keeps the connection invariant: an attached light means no simulation and no reconnect timer, and no light means the timer runs. |
| `ControllerProps.DefaultStatusFaults` | busylight_app.py:526-536 | As shipped, a logged `set_status('default')` with a live light records `'default'` and emits `color_changed`, then raises. Nothing is written. |
| `ControllerProps.DefaultBreaksCoherence` | busylight_app.py:488-517 | As shipped: simulate, receive `'default'`, then find a light. The result has a light attached while simulation is on and the timer runs, and a later `'alert'` writes nothing. |
| `ControllerProps.FixedNamesAll` | busylight_app.py:401-408 | The fixed table names every colour-table status, keeps every shipped name, and names `'default'` like `'normal'`. |
| `ControllerProps.FixedSetStatusNeverFaults` | busylight_app.py:535-536 | With the fixed table, `set_status` never raises. It behaves exactly as shipped on every status that does not normalise to `'default'`. |
| `ControllerProps.FixedRunCoherent` | busylight_app.py:410-432 | With the fixed table, every state reachable from a new controller is coherent and valid. |
| `Worker.ConnectToRedis` | busylight_app.py:301-325 | The worker is connected iff a non-empty token exists and the handshake succeeds. Without a token it reports disconnected. |
| `Worker.StartupStatus` | busylight_app.py:346-357 | An empty history announces `'normal'` and a failed read announces nothing. A stored entry that decodes to an object announces that object's `status`, and nothing when it has none. An entry that is not an object announces nothing. |
| `Worker.LiveStatus` | busylight_app.py:366-376 | Exactly the data messages announce a status. It is the message's `status` when present, and `'error'` when it is missing or the message cannot be decoded. |
| `Worker.LiveStatusesCount` | busylight_app.py:366-376 | Over any sequence of polls, the number of statuses announced equals the number of data messages. |
| `Worker.Run` | busylight_app.py:339-379 | The reported connection is the connection decision. When disconnected, including without a token, nothing is announced. When connected, the start-up status comes first, then one status per data message, in order. |
| `Display.TrayMatchesLight` | busylight_app.py:733-744 | For logged and unlogged calls alike, the tray icon colour equals the colour of any write the same status causes. An unknown status shows green. |
| `Display.StatusDisplay` | busylight_app.py:784-796 | The label reads `Status: ` and the status's name, or `Unknown` without one. The background becomes the status's colour, is cleared for `'off'`, and is left as it was for a status without a colour. The tray shows the colour of the normalised status. |
| `Display.SignalledStatusShown` | busylight_app.py:784-796 | Every status `set_status` signals has a colour, so the label never keeps a stale background. The label background and the tray show the colour written to the light, and the background is cleared exactly for `'off'`. |
| `Display.DefaultShownUnknown` | busylight_app.py:784-796 | As shipped, `'default'` shows a green background but reads `Status: Unknown`. With the fixed table it reads `Status: Green (Normal)`. |
| `Display.ConnectionLabel` | busylight_app.py:798-804 | The connection label is green iff the signal is `"connected"`, and red otherwise. |
| `Display.ConnectionLabelTracksWorker` | busylight_app.py:798-804 | The connection label is green iff the worker had a token and the handshake succeeded. |
| `Display.DeviceLabel` | busylight_app.py:884-899 | There is no update before the label exists. Green iff connected, with the device's name. Orange iff disconnected in simulation. Red iff disconnected otherwise. |
| `Display.DeviceLabelAfterConnect` | busylight_app.py:884-899 | When the current status has a name, the label left by the last device report of any connection attempt is green iff a light is attached, orange iff no light and simulation, and red otherwise. |
| `Display.InitialLabelTruthful` | busylight_app.py:610-616 | The device label shown when the window is built is truthful in the same sense. |
| `Display.CloseEvent` | busylight_app.py:873-882 | The window closes iff the application is quitting. Otherwise it hides to the tray. |
| `Display.OnExit` | busylight_app.py:812-871 | Exit stops the reconnect timer, keeps the light, and marks the application as quitting. It sets the status to `'off'` when a light or simulation is present, and writes black with no ring to a live light outside simulation. |
| `Display.ExitThenCloseAccepts` | busylight_app.py:867-882 | A close after exit is accepted. A close without it only hides the window. |
| `Cli.ColorFor` | busylight_cli.py:112 | A listed status gets its table colour. Every other status, `'normal'` included, gets green. |
| `Cli.NewColorNamed` | busylight_cli.py:91-107 | Every colour the table can produce has a name, so naming the new colour never fails. All colours are byte triples. |
| `Cli.LightControl` | busylight_cli.py:88-139 | A light whose colour cannot be read makes the call raise before anything is logged or written. A change is logged exactly when the new colour differs from the light's and the light's colour has a name. The log names both colours. The call also raises iff the colour differs and the light's colour has no name; then nothing is logged or written. The write happens iff there is no raise and the light accepts it. The write carries the status colour and rings (OpenOffice, 7) iff the status is `'alert'`. |
| `Cli.StartupStatus` | busylight_cli.py:55-66 | The listener reads the newest history entry exactly as the desktop worker does. |
| `Cli.LiveReaction` | busylight_cli.py:73-86 | The listener ends on a decoding error iff a data message is not JSON, and ignores non-data polls. A decoded object's `status` is applied when present, and `'error'` when it is missing or the message is not an object. |
| `Cli.ListenCrashesOnMalformed` | busylight_cli.py:73-86 | Over any sequence of polls, the listener ends on a decoding error iff some data message is not JSON. |
| `Cli.ListenAgreesWithWorker` | busylight_cli.py:79-85 | When every message decodes, the listener applies exactly the statuses the desktop worker announces, and does not end. |
| `Cli.ShutdownSilent` | busylight_cli.py:170-174 | If the light's colour has a name, shutdown writes black with no ring and does not raise. |
| `Agreement.SharedStatusesAgree` | busylight_cli.py:91-98 | Every listener status is a controller status, the controller adds only `'normal'`, and the colours agree on every shared status. |
| `Agreement.ColorsAgreeEverywhere` | busylight_cli.py:112 | For every status, the listener's colour equals the controller's colour of the normalised status. |
| `Agreement.CommandsAgree` | busylight_cli.py:109-119 | When the listener does not raise, it writes the same command the controller writes for that status. |
| `Agreement.NamesAgree` | busylight_cli.py:100-107 | The listener's name for a status's colour is the controller's name for that status. `'default'` is named as the fixed table names it. |

## Left out

- The Qt widgets, layouts, menus and tray menu are left out because they are GUI plumbing. So are the dialogs and the `QSettings` storage in `ConfigDialog`. The `allow_simulation` setting is a field of the controller, and the token is a parameter.
- `test_connection`, `get_redis_password`, the Redis ping and pub/sub polling are network clients. Their outcome is the `handshakeOk` flag, the `History` value and the sequence of `Event` polls.
- JSON decoding is abstracted to `Message`: not JSON, not an object, or an object with or without a string `status`. A `status` whose value is not a string is not modelled.
- Threads, the asyncio loops and `QTimer` scheduling are left out because they are concurrency. The reconnect timer is only its "active" flag. The 20-second state-maintenance timer and the 10-second interval are not modelled, and neither is the worker's stop flag: the worker sees a finite sequence of polls.
- The vendor driver's `CommandBuffer`, `Instruction.Jump`, `write_strategy`, `on` and `update` are a foreign USB driver. A write is a recorded `Command`. A failing probe of `light.color` and a failing write are both the light's "does not answer" flag.
- The choice between `Busylight_Omega` and `Light` (`USE_OMEGA`) and the device listing in `manually_connect_device` are driver plumbing. So are its temporary "Attempting to connect…" text, the red "Device not found!" label with its 2-second restore, `show_and_raise`, `on_tray_activated` and `restart_worker`.
- Log lines are `LogEntry` kinds without timestamps or exception texts.
- Style sheets are reduced to a tint or a background colour.
- `setup_autostart`, the build and packaging scripts and the entry-point wrappers are OS and packaging plumbing.
- The command-line program's start-up checks (missing token or password, then exit) and its `check_light_status` loop (which reads the colour and discards it) are process plumbing. Its `main` is asyncio plumbing.
- The command-line listener is modelled as the statuses it applies. A run that feeds each applied status through `light_control`, with the light's colour carried from one write to the next, is not modelled. Neither is the end of the live loop when `light_control` raises, on a light colour without a name or on a light whose colour cannot be read.
- `Controller.TryConnect`: its own contract covers only the live-light branch. The search branches are stated by `ControllerProps.ConnectFoundAttaches`, `ControllerProps.ConnectMissLeavesRetrying` and `ControllerProps.RunKeepsCoherent`.
- `Controller.Refresh`: its own contract covers only the branch where the refresh does nothing. The other branches are stated by `ControllerProps.RefreshReapplies` and `ControllerProps.RefreshDropsSilentLight`.

## Findings

| source | as written | input that shows it | evidently intended | confidence | as-written member | corrected member |
|---|---|---|---|---|---|---|
| busylight_app.py:526-536 | `'default'` is a key of the colour table (line 397), so it passes the check at line 526, but it has no entry in the name table (lines 401-408). A logged `set_status('default')` records the status, emits `color_changed`, then raises at the name lookup before writing to the light. | Message `{"status": "default"}` while a live light is attached. | `'default'` behaves like `'normal'`, its backward-compatible alias: named "Green (Normal)" and written. | not executed | `ControllerProps.DefaultStatusFaults` | `ControllerProps.FixedSetStatusNeverFaults` |
| busylight_app.py:488-517 | The raise from the re-applied status is caught by the connection attempt's generic error branch (line 504), which keeps the light just found. That branch turns simulation back on and restarts the reconnect timer. Later the timer only finds the light alive and returns (line 460), so simulation never ends and no status reaches the light. | With simulation allowed and no light: status `'default'`, then a light is plugged in and found. | A found light is used and the controller stays coherent: a light means no simulation and no timer. | not executed | `ControllerProps.DefaultBreaksCoherence` | `ControllerProps.FixedRunCoherent` |
