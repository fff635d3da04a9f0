# 2-axis annotation canvas: the interaction controller

A Dafny model of the controller in `script.js`. The script lets users put labelled,
tagged points on a two-axis canvas, drag them, edit them through a modal dialog, delete
them, and filter them by tag. What remains once DOM and canvas calls are stripped is one
object with these parts:

- **The point store.** `points` holds point objects. The model makes them a class
  (`Points.Point`), because a point's identity is its object reference.
- **The gesture state.** `draggingPoint`, `dragStart` and `didDrag`, driven by the four
  mouse handlers.
- **The modal state.** `modalMode`, `modalTargetPoint` and `pendingAddPosition`, plus
  `modalOpen`, which stands for the backdrop being displayed, and `form`, which stands for
  what `openModal` writes into the label input and the radio group.
- **The phrase selection.** `activePhrase`.

All of these are the fields of `Interaction.Canvas`. Each event handler is one method with
a `modifies` frame that names the fields it may change. The pure rules are functions in
their own modules:

- `Text`: the trimming of the label.
- `Tags`: tag colours, the filter test, the tag read from the radio group.
- `Phrases`: the phrase toggle.
- `Geometry`: the hit and movement thresholds.
- `Points`: the reverse hit-test scan and removal by reference.
- `Gestures`: the decision `mouseup` takes.
- `Modal`: the prefilled forms.
- `Drawing`: which points are drawn, and how.

`Scenarios` strings handlers together into whole gestures and editor round trips, and
states what each sequence achieves from any valid state.

`Canvas.Valid()` is the invariant every handler keeps:

- the store never holds the same object twice;
- an armed point always comes with a recorded press position;
- only an armed gesture can have dragged;
- a draft target (the detached `{label, tag}` object that `mouseup` builds for a selected
  phrase) only appears in add mode.

Coordinates are integers. Under that model, the `mousemove` test ("more than 2 on either
axis") and the `mouseup` test ("less than 3 on both axes") are exact complements
(`Geometry.ThresholdsComplementary`).

## Model

| member | source | states |
|---|---|---|
| Text.TrimStartSpec | script.js:268 | The start-trim keeps the suffix that begins at the first non-whitespace character; everything cut off is ECMAScript whitespace or a line terminator |
| Text.TrimEndSpec | script.js:268 | The end-trim keeps the prefix that ends at the last non-whitespace character; everything cut off is whitespace |
| Text.TrimSpec | script.js:268 | `trim()` returns a contiguous slice with only whitespace cut off on both sides, neither starting nor ending with whitespace, and empty exactly when the input is blank |
| Text.TrimIdempotent | script.js:268 | Trimming an already trimmed label changes nothing |
| Tags.EffectiveTagStable | script.js:145-153 | Falling back to "Personal Trait" twice is the same as once, so the filter gives the same answer on the raw tag and on the effective tag |
| Tags.RadioRoundTrip | script.js:244-246 | The radio the editor checks for a point's tag, read back by Save (script.js:274-275), is the effective tag when that is known and "Personal Trait" otherwise, so an untagged point saves as "Personal Trait" |
| Tags.TagColorDefault | script.js:175-185 | `tagColor` gives the neutral "#555" exactly for the strings that are not one of the three known tags |
| Tags.TagColorsDistinct | script.js:175-185 | Two different known tags always get different colours |
| Tags.VisibilityRule | script.js:144-153 | A point is hidden exactly when its effective tag is a known tag whose checkbox is unchecked; unknown tags are always drawn; an untagged point follows the "Personal Trait" box; with every box checked nothing is hidden |
| Phrases.ToggleTwiceClears | script.js:65-70 | Clicking the same phrase twice, starting from any other selection, leaves nothing selected |
| Geometry.ThresholdsComplementary | script.js:338-360 | On integer positions, a release counts as a small movement exactly when a move to that position would not start a drag |
| Geometry.HitRadiusBounds | script.js:199-204 | A point within 8 in Manhattan distance of the cursor is hit; a point more than 8 away on either axis is not |
| Points.Point.constructor | script.js:278-283 | A new point object holds the given position, label and tag |
| Points.Point.Relabel | script.js:285-286 | Editing in place replaces label and tag and keeps the position |
| Points.TopmostHit | script.js:198-209 | The hit test finds nothing exactly when no point is within the radius; otherwise it finds a point within the radius with no such point after it, so the topmost one |
| Points.IndexOf | script.js:301 | `indexOf` by reference gives -1 exactly when the object is absent, and otherwise the first index holding it |
| Points.RemoveAt | script.js:303 | `splice(index, 1)` drops the element at that index and shifts the later ones down by one |
| Points.Remove | script.js:300-304 | Removing an absent object leaves the store unchanged; removing a present one shortens it by one |
| Points.RemoveExactlyOne | script.js:300-304 | In a store without repeats, removal takes out exactly the target: every other object stays, no repeats appear, and the multiset loses exactly one copy of the target |
| Gestures.NoModalAfterDrag | script.js:357-369 | After a drag no modal opens, wherever the cursor is released; nor does one open without a recorded press or after a release far from the press |
| Modal.PhraseToggledTwiceGivesBlankForm | script.js:369-392 | After a phrase is selected and clicked again, the adder opens blank with "Personal Trait" |
| Modal.SavingPrefillKeepsTag | script.js:232-253 | Saving an unedited prefilled form keeps the tag: the adder's tag is "Project Key Phrase" or "Personal Trait"; a point with a known tag keeps it; a point with an unknown tag becomes "Personal Trait" |
| Drawing.MarksMembers | script.js:144-168 | A mark is drawn exactly when it is the mark (position, colour of the effective tag, label) of some point the filters let through |
| Drawing.MarksAppend | script.js:144-168 | For any filters, the marks of a store split in two are the marks of the first part followed by those of the second, so drawing keeps store order |
| Drawing.AllShownDrawsEveryPoint | script.js:140-153 | With every checkbox checked, each point gets exactly its own mark, in store order |
| Interaction.Canvas.constructor | script.js:13-38 | The script starts with no points, no gesture, no modal open and no phrase selected |
| Interaction.Canvas.GetPointAtPosition | script.js:198-209 | The reverse scan returns the topmost point within the hit radius, which is a stored point, or null exactly when no stored point is near |
| Interaction.Canvas.ClickPhrase | script.js:65-70 | A phrase button click toggles the selection |
| Interaction.Canvas.DrawPoints | script.js:139-168 | The loop emits exactly the marks of the visible points in store order, and changes no state |
| Interaction.Canvas.OpenModal | script.js:213-258 | Records mode, target and pending position, and opens the modal. The label comes from the target (empty without one). The radio is "Project Key Phrase" when adding from a phrase, the point's effective tag in edit mode, and "Personal Trait" otherwise |
| Interaction.Canvas.CloseModal | script.js:260-264 | Hides the modal and clears its target and pending position |
| Interaction.Canvas.Save | script.js:267-291 | A label that is blank after trimming changes nothing and keeps the modal open. Otherwise add mode with a pending position appends exactly one fresh point (pending position, trimmed label, chosen tag). Edit mode rewrites only the target's label and tag, keeping its position and index. Any other case leaves the store as it is. Points other than an edit-mode target never change, and the modal closes |
| Interaction.Canvas.Push | script.js:278-283 | `points.push` grows the store by exactly one fresh object at the end, keeping it free of repeats |
| Interaction.Canvas.Cancel | script.js:294-296 | Closes the modal; the store and every point stay as they were |
| Interaction.Canvas.ClickBackdrop | script.js:311-315 | Closes the modal only when the click landed on the backdrop itself; the store is untouched either way |
| Interaction.Canvas.Delete | script.js:299-308 | Splices out exactly the target object when it is stored, so every other object stays in its order. It leaves the store alone when there is no target, a draft target or an absent target. The modal always closes |
| Interaction.Canvas.MouseDown | script.js:319-332 | Arms the topmost point under the cursor (or nothing), records the press position and clears `didDrag` |
| Interaction.Canvas.MouseMove | script.js:334-350 | Without an armed point nothing changes. Otherwise `didDrag` becomes true once the cursor is more than 2 away on an axis and never falls back. While it is true the armed point, and no other, moves to the cursor, keeping label and tag |
| Interaction.Canvas.MouseUp | script.js:352-398 | Opens the editor for exactly the armed point, the adder at the release position, or nothing, as `ReleaseAction` decides. After a drag the modal state is unchanged. The gesture is always reset, and the frame leaves the store and every point untouched |
| Interaction.Canvas.MouseLeave | script.js:400-404 | Resets the gesture without touching the modal; positions written by a drag stay |
| Scenarios.ClickOnEmpty | script.js:319-398 | A press on empty space, any moves, and a small release open the adder at the release position; the store is unchanged and the gesture reset |
| Scenarios.MoveArmed | script.js:334-350 | Over a run of moves, the gesture is a drag exactly when some move passed the threshold; then the point sits at the last move; otherwise it has not moved |
| Scenarios.ClickOnPoint | script.js:319-368 | A press on a point, moves inside the threshold and a small release open the editor for exactly the topmost point under the press; no point has changed |
| Scenarios.DragAndRelease | script.js:319-398 | A drag ends with the point at the last move position, label and tag kept, every other point unchanged, no modal opened and the gesture reset |
| Scenarios.DragAndLeave | script.js:319-404 | A drag cut off by leaving the canvas keeps the positions written, opens no modal and resets the gesture |
| Scenarios.AddPoint | script.js:267-291 | Clicking empty space and saving a non-blank label appends exactly one new point at the click position, with the trimmed label and the chosen tag |
| Scenarios.EditPoint | script.js:267-291 | Clicking a point and saving a non-blank label rewrites that point's label and tag only: position and index stay, as do all other points |
| Scenarios.AddThenEdit | script.js:267-291 | Adding a point and then editing it at the same spot leaves one new object at the end of the store, carrying the second label and tag |
| Scenarios.ClickThenDelete | script.js:299-308 | Clicking a point and pressing Delete removes exactly that object; the others stay, in order |
| Scenarios.PhraseTwiceThenClick | script.js:65-72 | Selecting a phrase, clicking it again and then clicking empty space opens a blank adder with "Personal Trait" and no draft target |

## Left out

- Canvas rendering (`drawAxes`, the `ctx` calls of `drawPoints`, fonts, arcs, label offsets) is not modelled. `drawPoints` is reduced to the list of marks (centre, colour, label text) it would paint.
- `getMousePos` is not modelled. It depends on page layout and uses floating-point rescaling, so handlers take canvas-space integer positions.
- DOM element lookup, building the phrase buttons, `refreshPhraseButtons`, `alert`, `focus`/`select`, the modal title and Delete-button visibility, the key-phrase option's display, `draw()` calls and the event-listener wiring are user-interface side effects and are left out. The modal is `modalOpen` plus its mode, target, pending position and form.
- The target check for a backdrop click (`e.target === modalBackdrop`) is the boolean parameter `onBackdrop`, because the event object is not modelled.
- The radio group's markup (index.html) is not part of this model. The group is taken to hold one button per known tag, whose values are the tag names (`Tags.RadioFor`). Save receives the label text and the checked radio's value as parameters.
- The `clickedPoint` computed in `mouseup` and never used is left out.
- The contents of the `projectPhrases` list are left out: a phrase is any string.
- JavaScript values other than strings in `label` and `tag` are not modelled. The empty string stands for every falsy tag, and a selected phrase that is the empty string counts as no selection.
- Points.RemoveExactlyOne: stated only for stores without repeated objects. `Canvas.Valid` keeps the store that way, and the source has no other way to add an object than pushing a fresh one.
- Interaction.Canvas.MouseUp: that the store and the points are untouched is stated by its `modifies` frame, which names no point and not `points`, rather than by a postcondition.
