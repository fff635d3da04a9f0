/** The pure parts of the modal editor (script.js:213-264): its mode, its target and the
    label and tag it is prefilled with. */
module Modal {
  import opened Wrappers
  import opened Tags
  import opened Phrases
  import opened Points

  /** `modalMode`. */
  datatype Mode = Add | Edit

  /** `modalTargetPoint`: nothing, a stored point, or, when adding from a phrase, the
      detached `{ label, tag }` object built at script.js:374-377, which is never stored. */
  datatype Target = NoTarget | OnPoint(point: Point) | Draft(labelText: string, tag: string)
  {
    /** The objects an edit through this target may assign. */
    function Objects(): set<Point>
    {
      if OnPoint? then {point} else {}
    }
  }

  /** The label input's text and the checked radio button. */
  datatype Form = Form(labelText: string, checked: Option<string>)

  /** The form the adder opens with (script.js:371-391 with script.js:226, 232-253): the
      selected phrase and "Project Key Phrase", or an empty label and "Personal Trait". */
  function AddForm(activePhrase: Option<string>): (f: Form)
    ensures IsSelected(activePhrase) ==> f == Form(activePhrase.value, Some(ProjectKeyPhrase))
    ensures !IsSelected(activePhrase) ==> f == Form([], Some(PersonalTrait))
  {
    if IsSelected(activePhrase) then Form(activePhrase.value, Some(ProjectKeyPhrase))
    else Form([], Some(PersonalTrait))
  }

  /** The form the editor opens with for a point (script.js:222, 232-246): its label and
      the radio of its effective tag, none when the tag is unknown. */
  function EditForm(v: PointValue): (f: Form)
    ensures f.labelText == v.labelText
    ensures f.checked.Some? <==> IsKnownTag(EffectiveTag(v.tag))
    ensures f.checked.Some? ==> f.checked.value == EffectiveTag(v.tag)
  {
    Form(v.labelText, RadioFor(EffectiveTag(v.tag)))
  }

  /** After selecting a phrase and clicking its button again, the adder opens blank with
      the default tag rather than with the preset. */
  lemma PhraseToggledTwiceGivesBlankForm(activePhrase: Option<string>, phrase: string)
    requires activePhrase != Some(phrase)
    ensures AddForm(Toggle(Toggle(activePhrase, phrase), phrase)) == Form([], Some(PersonalTrait))
  {
    ToggleTwiceClears(activePhrase, phrase);
  }

  /** Saving an unedited prefilled form keeps the tag: the adder's radio is a known tag,
      and for a point with a known tag the editor's radio is that tag. */
  lemma SavingPrefillKeepsTag(activePhrase: Option<string>, v: PointValue)
    ensures ChosenTag(AddForm(activePhrase).checked) ==
              if IsSelected(activePhrase) then ProjectKeyPhrase else PersonalTrait
    ensures IsKnownTag(EffectiveTag(v.tag)) ==> ChosenTag(EditForm(v).checked) == EffectiveTag(v.tag)
    ensures !IsKnownTag(EffectiveTag(v.tag)) ==> ChosenTag(EditForm(v).checked) == PersonalTrait
  {
  }
}
