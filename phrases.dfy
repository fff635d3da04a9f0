/** The phrase preset buttons: at most one phrase is selected (script.js:38, 65-72). A phrase
    is an opaque string; the list of presets is static configuration and not modelled. */
module Phrases {
  import opened Wrappers

  /** The click handler of a phrase button: clicking the selected phrase clears the
      selection, clicking any other phrase selects it instead. */
  function Toggle(active: Option<string>, phrase: string): (r: Option<string>)
    ensures r.None? <==> active == Some(phrase)
    ensures r.Some? ==> r.value == phrase
  {
    if active == Some(phrase) then None else Some(phrase)
  }

  /** Clicking the same button twice, starting from any other selection, leaves nothing
      selected: the toggle is not a stack and does not restore an earlier phrase. */
  lemma ToggleTwiceClears(active: Option<string>, phrase: string)
    requires active != Some(phrase)
    ensures Toggle(Toggle(active, phrase), phrase).None?
  {
  }

  /** `if (activePhrase)` in JavaScript: null and the empty string are both falsy. */
  predicate IsSelected(active: Option<string>)
  {
    active.Some? && active.value != []
  }
}
