/** `togglePauseFields`: which of the two pause field groups (duration, end)
    is shown, as a function of the two radio buttons. The style writes are
    left out; only the decision is modelled. */
module PauseFields {

  datatype Visibility = Visibility(durationShown: bool, endShown: bool)

  /** The two-way toggle of the first and third carousel versions: the
      duration group when its radio is checked, the end group otherwise. */
  function TwoWay(durationChecked: bool): (v: Visibility)
    ensures v.durationShown <==> durationChecked
    ensures v.endShown <==> !v.durationShown
  {
    if durationChecked then Visibility(true, false) else Visibility(false, true)
  }

  /** The toggle of the second carousel version: both groups are hidden
      first, then the duration group is shown if its radio is checked, and
      otherwise the end group if its radio is checked. */
  function ThreeWay(durationChecked: bool, endChecked: bool): (v: Visibility)
    ensures v.durationShown <==> durationChecked
    ensures v.endShown <==> endChecked && !durationChecked
    ensures !(v.durationShown && v.endShown)
  {
    var hidden := Visibility(false, false);
    if durationChecked then hidden.(durationShown := true)
    else if endChecked then hidden.(endShown := true)
    else hidden
  }

  /** With a proper radio group (exactly one radio checked) the two versions
      agree; they differ only when neither radio is checked, where the
      two-way toggle shows the end group and the three-way one shows nothing. */
  lemma ToggleVersionsAgree(durationChecked: bool, endChecked: bool)
    ensures durationChecked != endChecked ==> ThreeWay(durationChecked, endChecked) == TwoWay(durationChecked)
    ensures !durationChecked && !endChecked ==>
      ThreeWay(durationChecked, endChecked) == Visibility(false, false) &&
      TwoWay(durationChecked) == Visibility(false, true)
  {
  }
}
