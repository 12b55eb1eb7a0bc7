/**
 The command-line listener: the original status-to-light mapping, its
 change log, and the listener's handling of the history entry and channel
 messages.  The light is reduced to the colour it currently reports and
 whether it accepts a write.
 */
module Cli {
  import opened Common
  import Worker

  /** The command-line table; `'default'` is the colour of every unknown status. */
  const ColorMap: map<Status, Rgb> := map[
    "alert" := Rgb(255, 0, 0),
    "alert-acked" := Rgb(255, 140, 0),
    "warning" := Rgb(255, 255, 0),
    "error" := Rgb(255, 0, 255),
    "default" := Rgb(0, 255, 0),
    "off" := Rgb(0, 0, 0)
  ]

  /** Names keyed by colour. */
  const ColorNames: map<Rgb, string> := map[
    Rgb(255, 0, 0) := "Red (Alert)",
    Rgb(255, 140, 0) := "Orange (Alert-Acked)",
    Rgb(255, 255, 0) := "Yellow (Warning)",
    Rgb(255, 0, 255) := "Purple (Error)",
    Rgb(0, 255, 0) := "Green (Normal)",
    Rgb(0, 0, 0) := "Off"
  ]

  /** The colour for a status, falling back to the `'default'` entry. */
  function ColorFor(status: Status): (c: Rgb)
    ensures status in ColorMap ==> c == ColorMap[status]
    ensures status !in ColorMap ==> c == Rgb(0, 255, 0)
  {
    if status in ColorMap then ColorMap[status] else ColorMap["default"]
  }

  /** Every colour the table can produce has a name, so naming the new
      colour never fails; and every colour is a byte triple. */
  lemma NewColorNamed(status: Status)
    ensures ColorFor(status) in ColorNames
    ensures IsByteColor(ColorFor(status))
    ensures forall s :: s in ColorMap ==> ColorMap[s] in ColorNames
  {
  }

  /** The log line announcing a colour change, by name. */
  datatype Change = Change(from: string, to: string)

  /** Why a `light_control` call raised: the light's colour could not be
      read, or the colour it reports has no name. */
  datatype Fault = Unreadable | Unnamed(color: Rgb)

  /**
   What one `light_control` call does: the change it logs, the write the
   light accepted, and why it raised, if it did.
   */
  datatype Outcome = Outcome(change: Option<Change>, write: Option<Command>, fault: Option<Fault>)

  /**
   `light_control`: read the light's colour (which raises when the light
   cannot be read, before anything else happens), choose the colour, log the
   change when it differs from the light's colour (naming both, which raises
   when the light's colour has no name), choose the ring tone and write.  A
   write the light refuses is only reported.
   */
  function LightControl(status: Status, current: Option<Rgb>, writeOk: bool): (r: Outcome)
    ensures current.None? ==> r == Outcome(None, None, Some(Unreadable))
    ensures r.change.Some? ==> current.Some? && ColorFor(status) != current.value
    ensures current.Some? && ColorFor(status) != current.value && current.value in ColorNames ==>
      r.change == Some(Change(ColorNames[current.value], ColorNames[ColorFor(status)]))
    ensures r.change.Some? ==>
      current.value in ColorNames && r.change.value == Change(ColorNames[current.value], ColorNames[ColorFor(status)])
    ensures current == Some(ColorFor(status)) ==> r.change.None? && r.fault.None?
    ensures r.fault.Some? <==>
      current.None? || (ColorFor(status) != current.value && current.value !in ColorNames)
    ensures current.Some? && r.fault.Some? ==> r.fault == Some(Unnamed(current.value))
    ensures r.fault.Some? ==> r.change.None? && r.write.None?
    ensures r.write.Some? <==> r.fault.None? && writeOk
    ensures r.write.Some? ==>
      && r.write.value.color == ColorFor(status)
      && (r.write.value.ring == OpenOffice <==> status == "alert")
      && (r.write.value.volume == 7 <==> status == "alert")
      && (r.write.value.volume == 0 <==> status != "alert")
  {
    if current.None? then Outcome(None, None, Some(Unreadable))
    else
      var color := ColorFor(status);
      if color != current.value && current.value !in ColorNames then
        Outcome(None, None, Some(Unnamed(current.value)))
      else
        var change := if color != current.value then Some(Change(ColorNames[current.value], ColorNames[color])) else None;
        var (ring, volume) := Ringer(status);
        Outcome(change, if writeOk then Some(Command(color, ring, volume)) else None, None)
  }

  /**
   The start-up step of the listener: the newest history entry's status,
   `'normal'` for an empty history, and nothing when reading or decoding the
   entry raised (the guard only prints).
   */
  function StartupStatus(h: History): (r: Option<Status>)
    ensures r == Worker.StartupStatus(h)
  {
    match h
    case Unreachable => None
    case Latest(head) =>
      if HasEntry(head) then
        if head.value.body.Object? then head.value.body.status else None
      else Some("normal")
  }

  /** What the listener does with one poll. */
  datatype Reaction = Skip | Apply(status: Status) | Crash

  /**
   The listener's loop body: a data message is decoded outside any guard,
   so text that is not JSON ends the listener; a decoded message's `status`
   is applied, `'error'` when it is missing.
   */
  function LiveReaction(e: Event): (r: Reaction)
    ensures r.Crash? <==> e == Data(Malformed)
    ensures r.Skip? <==> !e.Data?
    ensures r.Apply? && r.status != "error" ==> e == Data(Object(Some(r.status)))
    ensures e.Data? && e.body.Object? && e.body.status.Some? ==> r == Apply(e.body.status.value)
    ensures e == Data(NonObject) || e == Data(Object(None)) ==> r == Apply("error")
  {
    match e
    case Data(Malformed) => Crash
    case Data(Object(Some(s))) => Apply(s)
    case Data(_) => Apply("error")
    case _ => Skip
  }

  /** The statuses applied over a sequence of polls, and whether the listener ended. */
  datatype Listening = Listening(applied: seq<Status>, crashed: bool)

  function Listen(events: seq<Event>): Listening
  {
    if events == [] then Listening([], false)
    else
      var before := Listen(events[..|events| - 1]);
      if before.crashed then before
      else
        match LiveReaction(events[|events| - 1])
        case Crash => Listening(before.applied, true)
        case Skip => before
        case Apply(s) => Listening(before.applied + [s], false)
  }

  predicate HasMalformed(events: seq<Event>) {
    exists i :: 0 <= i < |events| && events[i] == Data(Malformed)
  }

  /** The listener ends exactly when some message is not JSON. */
  lemma {:induction false} ListenCrashesOnMalformed(events: seq<Event>)
    ensures Listen(events).crashed <==> HasMalformed(events)
    decreases |events|
  {
    if events != [] {
      var init := events[..|events| - 1];
      ListenCrashesOnMalformed(init);
      if HasMalformed(init) {
        var i :| 0 <= i < |init| && init[i] == Data(Malformed);
        assert events[i] == Data(Malformed);
      }
      if HasMalformed(events) {
        var i :| 0 <= i < |events| && events[i] == Data(Malformed);
        if i < |init| {
          assert init[i] == Data(Malformed);
        }
      }
    }
  }

  /**
   On polls whose messages all decode, the listener applies exactly the
   statuses the desktop worker announces for the same polls.
   */
  lemma {:induction false} ListenAgreesWithWorker(events: seq<Event>)
    requires !HasMalformed(events)
    ensures Listen(events) == Listening(Worker.LiveStatuses(events), false)
    decreases |events|
  {
    if events != [] {
      var init := events[..|events| - 1];
      assert !HasMalformed(init) by {
        forall i | 0 <= i < |init|
          ensures init[i] != Data(Malformed)
        {
          assert init[i] == events[i];
        }
      }
      ListenAgreesWithWorker(init);
      assert events[|events| - 1] != Data(Malformed);
    }
  }

  /** Shutting down turns the light off without a ring, provided the
      colour the light reports has a name. */
  lemma ShutdownSilent(current: Rgb)
    requires current in ColorNames
    ensures var r := LightControl("off", Some(current), true);
      r.fault.None? && r.write == Some(Command(Rgb(0, 0, 0), RingOff, 0))
  {
  }
}
