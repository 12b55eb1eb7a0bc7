/**
 The command-line listener and the desktop controller drive the light the
 same way: the colour tables agree on every status they share, the desktop's
 `'normal'` is the listener's fallback colour, and the listener's names keyed
 by colour agree with the desktop's names keyed by status.
 */
module Agreement {
  import opened Common
  import Cli
  import Controller

  /** On every status both tables list, both give the same colour. */
  lemma SharedStatusesAgree()
    ensures Cli.ColorMap.Keys <= Controller.ColorMap.Keys
    ensures Controller.ColorMap.Keys - Cli.ColorMap.Keys == {"normal"}
    ensures forall s :: s in Cli.ColorMap && s in Controller.ColorMap ==> Cli.ColorMap[s] == Controller.ColorMap[s]
  {
    assert "normal" !in Cli.ColorMap;
    assert forall s :: s in Controller.ColorMap.Keys - Cli.ColorMap.Keys ==> s == "normal";
  }

  /**
   For every status whatever, the listener shows the colour the controller
   shows after normalising: unknown statuses fall back to the same green on
   both sides, and `'normal'` is green on both.
   */
  lemma ColorsAgreeEverywhere(status: Status)
    ensures Cli.ColorFor(status) == Controller.ColorMap[Controller.Normalize(status)]
    ensures Cli.ColorFor("normal") == Controller.ColorMap["normal"]
  {
  }

  /** Both programs write the same command for a status: the same colour and
      the same ring tone and volume. */
  lemma CommandsAgree(status: Status, current: Option<Rgb>)
    ensures var r := Cli.LightControl(status, current, true);
      r.fault.None? ==> r.write == Some(Controller.CommandFor(Controller.Normalize(status)))
  {
  }

  /**
   The listener's name for a status's colour is the controller's name for
   that status, wherever the controller has one; `'default'`, which the
   controller cannot name, is named by its colour like `'normal'`.
   */
  lemma NamesAgree()
    ensures forall s :: s in Controller.ColorNames ==>
      Controller.ColorMap[s] in Cli.ColorNames && Cli.ColorNames[Controller.ColorMap[s]] == Controller.ColorNames[s]
    ensures Cli.ColorNames[Controller.ColorMap["default"]] == Controller.FixedColorNames["default"]
  {
  }
}
