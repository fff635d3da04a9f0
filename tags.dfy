/** The three point categories, their colours (`tagColor`, script.js:175-185) and the per-tag
    visibility test of `drawPoints` (script.js:140-153). A tag is a plain string, as in the
    source; the empty string stands for a missing or falsy tag. */
module Tags {
  import opened Wrappers

  const PersonalTrait: string := "Personal Trait"
  const ResearchProjectTrait: string := "Research Project Trait"
  const ProjectKeyPhrase: string := "Project Key Phrase"

  const PersonalColor: string := "#2c7be5"
  const ResearchColor: string := "#e67e22"
  const KeyPhraseColor: string := "#9b59b6"
  const DefaultColor: string := "#555"

  predicate IsKnownTag(tag: string)
  {
    tag == PersonalTrait || tag == ResearchProjectTrait || tag == ProjectKeyPhrase
  }

  /** `p.tag || "Personal Trait"`: a missing tag counts as a personal trait. */
  function EffectiveTag(tag: string): (t: string)
    ensures t != []
    ensures tag != [] ==> t == tag
    ensures tag == [] ==> t == PersonalTrait
  {
    if tag == [] then PersonalTrait else tag
  }

  /** Falling back to "Personal Trait" a second time changes nothing, so testing the
      effective tag or the raw tag for visibility is the same. */
  lemma EffectiveTagStable(tag: string, filters: Filters)
    ensures EffectiveTag(EffectiveTag(tag)) == EffectiveTag(tag)
    ensures IsVisible(EffectiveTag(tag), filters) == IsVisible(tag, filters)
  {
  }

  /** `tagColor`. */
  function TagColor(tag: string): string
  {
    match tag
    case "Personal Trait" => PersonalColor
    case "Research Project Trait" => ResearchColor
    case "Project Key Phrase" => KeyPhraseColor
    case _ => DefaultColor
  }

  /** Every string, unknown tags included, gets a colour rather than an error, and the
      neutral default is kept for exactly the strings that are not known tags. */
  lemma TagColorDefault(tag: string)
    ensures TagColor(tag) == DefaultColor <==> !IsKnownTag(tag)
  {
  }

  /** The three known tags are told apart by colour. */
  lemma TagColorsDistinct(a: string, b: string)
    requires IsKnownTag(a) && IsKnownTag(b) && a != b
    ensures TagColor(a) != TagColor(b)
  {
  }

  /** The state of the three filter checkboxes (all checked initially). */
  datatype Filters = Filters(showPersonal: bool, showResearch: bool, showKeyPhrase: bool)

  const AllShown: Filters := Filters(true, true, true)

  /** Whether the checkbox for a known tag is checked. */
  function Shows(filters: Filters, tag: string): bool
    requires IsKnownTag(tag)
  {
    if tag == PersonalTrait then filters.showPersonal
    else if tag == ResearchProjectTrait then filters.showResearch
    else filters.showKeyPhrase
  }

  /** The test at script.js:145-153: a point is hidden only when its effective tag is one
      of the three known tags and that tag's checkbox is unchecked. */
  predicate IsVisible(tag: string, filters: Filters)
  {
    var t := EffectiveTag(tag);
    !((t == PersonalTrait && !filters.showPersonal) ||
      (t == ResearchProjectTrait && !filters.showResearch) ||
      (t == ProjectKeyPhrase && !filters.showKeyPhrase))
  }

  /** Hidden exactly when known and unchecked; unknown tags are always drawn, an untagged
      point is filtered as a personal trait, and with every box checked nothing is hidden. */
  lemma VisibilityRule(tag: string, filters: Filters)
    ensures !IsVisible(tag, filters) <==>
              IsKnownTag(EffectiveTag(tag)) && !Shows(filters, EffectiveTag(tag))
    ensures !IsKnownTag(EffectiveTag(tag)) ==> IsVisible(tag, filters)
    ensures tag == [] ==> (IsVisible(tag, filters) <==> filters.showPersonal)
    ensures IsVisible(tag, AllShown)
  {
  }

  /** The radio button that shows a tag as checked: the group holds one button per known
      tag, so an unknown tag leaves none checked. */
  function RadioFor(tag: string): (r: Option<string>)
    ensures r.Some? <==> IsKnownTag(tag)
    ensures r.Some? ==> r.value == tag
  {
    if IsKnownTag(tag) then Some(tag) else None
  }

  /** The radio the editor checks for a point, read back by Save, gives the point's
      effective tag when that is a known tag and "Personal Trait" otherwise: an unknown tag
      does not survive an unedited save. */
  lemma RadioRoundTrip(tag: string)
    ensures ChosenTag(RadioFor(EffectiveTag(tag))) ==
              if IsKnownTag(EffectiveTag(tag)) then EffectiveTag(tag) else PersonalTrait
    ensures tag == [] ==> ChosenTag(RadioFor(EffectiveTag(tag))) == PersonalTrait
  {
  }

  /** `tagRadio ? tagRadio.value : "Personal Trait"` (script.js:274-275). */
  function ChosenTag(checked: Option<string>): (t: string)
    ensures checked.Some? ==> t == checked.value
    ensures checked.None? ==> t == PersonalTrait
  {
    if checked.Some? then checked.value else PersonalTrait
  }
}
