/**
 Values shared by the desktop controller and the command-line listener:
 colours, ring tones, the command a device write carries, and the shapes of
 the messages that arrive from the Redis event queue.
 */
module Common {

  datatype Option<+T> = None | Some(value: T)

  /** A status name as it travels through the system (`'alert'`, `'off'`, ...). */
  type Status = string

  /** An RGB triple; every colour the tables use has channels in 0..255. */
  datatype Rgb = Rgb(r: int, g: int, b: int)

  predicate IsByteColor(c: Rgb) {
    0 <= c.r <= 255 && 0 <= c.g <= 255 && 0 <= c.b <= 255
  }

  /** The two ring tones the programs use out of the vendor driver's set. */
  datatype Ring = RingOff | OpenOffice

  /** One write to the light: the jump instruction's ring tone and volume,
      followed by switching the light on in `color`. */
  datatype Command = Command(color: Rgb, ring: Ring, volume: int)

  /** The ring tone and volume both programs pick for a status: only an
      alert rings, at volume 7; everything else is silent. */
  function Ringer(status: Status): (r: (Ring, int))
    ensures r.0 == OpenOffice <==> status == "alert"
    ensures r.1 == 7 <==> status == "alert"
    ensures r.0 == RingOff <==> r.1 == 0
  {
    if status == "alert" then (OpenOffice, 7) else (RingOff, 0)
  }

  /** The body of a queue entry or channel message once JSON decoding has run:
      text that is not JSON, a JSON value that is not an object, or an object
      whose `status` key is present (with a string) or absent. */
  datatype Message = Malformed | NonObject | Object(status: Option<Status>)

  /** The newest entry of the history list: its raw text and its decoding. */
  datatype Record = Record(text: string, body: Message)

  /** The result of reading the newest history entry at start-up: the read
      itself failed, or it returned an entry or nothing (an empty list). */
  datatype History = Unreachable | Latest(head: Option<Record>)

  /** One poll of the subscription: nothing arrived, a control event arrived
      (a subscription confirmation, whose type is not `message`), or a data
      message arrived. */
  datatype Event = Idle | Control | Data(body: Message)

  /** Python truthiness of the value the history read returned: `None` and
      the empty string are false. */
  predicate HasEntry(head: Option<Record>) {
    head.Some? && head.value.text != ""
  }
}
