# FormTextField, modelled in Dafny

FormTextField is a styled single-line text field for iOS. Without the platform it is a small
state machine: it keeps an `enabled` flag, a `valid` flag, its text and selection, eighteen
configurable colours (six triples: enabled, disabled, valid, invalid, active, inactive) and the
three colours it currently shows (layer background, layer border, text colour). Events update this
state in place:

- assigning `enabled` always repaints with the enabled or disabled triple;
- assigning `valid` repaints with the valid or invalid triple, but only while the field is enabled;
- beginning and ending editing repaint with the active or inactive triple, whatever `enabled` and
  `valid` say, so the most recent of the three writers wins;
- assigning an enabled or disabled colour repaints with the triple for the current `enabled`;
  assigning any other colour repaints nothing;
- an edit runs the text through an injected formatter and decides whether to put the selection
  back; it then marks the field valid again and tells the delegate;
- `validate()` asks an injected validator about the whole text and stores the verdict in `valid`;
- the keystroke gate lets a lone newline through always, and otherwise lets the validator decide;
- the clear button sets the text to nil and tells the delegate.

The project has four modules:

- `Appearance` (appearance.dfy): colours as an opaque type parameter `C`, the `Triple` and
  `Palette` datatypes, the appearance events, `Step` (one event, as the property observers apply
  it), `Run` (a sequence of events), and the lemmas about what a history of events shows.
- `Editing` (editing.dfy): the selection as a `TextRange` of offsets, the formatter as a function
  value `(string, bool) -> string`, and `Reconcile`, the text and selection `updateText` leaves.
- `Validation` (validation.dfy): the validator as a pair of function values, the `validate()`
  verdict and the keystroke gate.
- `TextField` (form_text_field.dfy): the class `FormTextField<C>`, whose fields are the widget's
  state and whose methods are its event handlers. Each method's postcondition ties the new state to
  the functions above (`AppearanceState() == Step(old(AppearanceState()), event)`,
  `text == Reconcile(...).text`), so the lemmas about `Step`, `Run` and `Reconcile` apply
  to the class.

`Wrappers` (wrappers.dfy) holds `Option`, standing for Swift optionals, with `GetOr` for `??`.

Points where the code is easy to misread:

- `updateText` compares the formatted text with the text the field holds when it is called. On the
  edit path that is the raw text the platform has just written, not the previously formatted text,
  so "grew" means "the formatter made the edited text longer".
- The two tests `didAddText` and `didFormat` are the same comparison. `Editing.KeepsSelection`
  keeps the three branches as written and states what they reduce to: the selection is dropped
  only when the text grew and the cursor is not at offset 1. On an empty text there is no position
  at offset 1 (the platform answers nil), so there the cursor is never "at start".
- There is no `active` flag: `updateActive` only paints.
- Beginning editing tells the delegate nothing (`formTextFieldDidBeginEditing` is declared but
  never sent). Ending editing, every edit, the clear button and Return do notify the delegate.
- `text` is declared optional, but the platform's getter never reads back nil: after `nil` is
  written (the clear button) it reads back as `""`. The model's `text` field holds what the getter
  reads back, so the clear button leaves `""` and the delegate and the validator are given `""`.
- The first branch of `updateText` writes `self.text` and the other two write `super.text`. The
  class does not override `text`, so the model treats both writes the same.

## Model

| member | source | states |
|---|---|---|
| `Appearance.Recolor` | Source/FormTextField.swift:21-43 | assigning one colour property sets that colour of that triple and leaves every other colour of the palette as it was |
| `Appearance.Uniform` | Source/FormTextField.swift:21-43 | a new field's eighteen colour properties all hold the same default colour |
| `Appearance.Step` | Source/FormTextField.swift:86-168 | one event as the observers of `enabled`, `valid` and the colour properties (lines 21-43) and `updateActive` apply it: whatever is shown afterwards is what was shown before or one of the six configured triples; only assigning `enabled` changes `enabled`, only assigning `valid` changes `valid`, and a colour assignment changes only the triple it names. `Run` applies events in order; the lemmas below establish last-writer-wins over any history of `Step`s |
| `Appearance.SilentRunKeepsDisplay` | Source/FormTextField.swift:25-98 | any run of validity assignments on a disabled field and of valid, invalid, active or inactive colour assignments leaves the shown colours and `enabled` unchanged |
| `Appearance.LastWriterWins` | Source/FormTextField.swift:132-168 | after any history, a painting event followed only by silent events leaves the field showing the triple that event wrote: the most recent writer wins, with no merged precedence |
| `Appearance.DisablingShowsDisabled` | Source/FormTextField.swift:146-156 | after any history, setting `enabled` to false shows the disabled triple, whatever the earlier valid or active state |
| `Appearance.EnablingShowsEnabled` | Source/FormTextField.swift:146-156 | after any history, setting `enabled` to true shows the enabled triple |
| `Appearance.FocusOverridesEverything` | Source/FormTextField.swift:132-144 | after any history, a focus change shows the active or inactive triple even on a disabled or invalid field |
| `Appearance.DisabledHidesValidity` | Source/FormTextField.swift:86-98 | disabling and then toggling `valid` any number of times shows the disabled triple throughout |
| `Editing.KeepsSelection` | Source/FormTextField.swift:113-124 | the three branches restore the selection exactly when the formatted text is not longer than the current text, or the current text is not empty and the selection starts at offset 1; `Editing.CursorAtStart` is line 115's comparison with `positionFromPosition(beginningOfDocument, offset: 1)`, which is nil on an empty text |
| `Editing.Reconcile` | Source/FormTextField.swift:106-128 | without a formatter the text becomes `newValue ?? ""`; with one, every branch writes `format(newValue ?? "", reverse: false)` and the old selection is kept unless the text grew with the cursor away from offset 1 (or from an empty text, which has no offset 1); a selection is required whenever a formatter is set |
| `Editing.ReconcileStable` | Source/FormTextField.swift:106-128 | reconciling the result again, with a formatter that fixes its own output, changes neither the text nor the selection |
| `Editing.EmptyTextDropsSelection` | Source/FormTextField.swift:113-122 | on an empty text offset 1 does not exist, so when formatting produces any text the selection is not restored |
| `Editing.PinnedAtStart` | Source/FormTextField.swift:115-118 | when formatting lengthens a non-empty text while the cursor is at offset 1, the previous selection is restored verbatim |
| `Validation.Verdict` | Source/FormTextField.swift:170-174 | valid when no validator is set, otherwise the validator's verdict on `text ?? ""` |
| `Validation.AcceptsReplacement` | Source/FormTextField.swift:221-232 | a lone newline is always accepted, any edit is accepted without a validator, and otherwise the validator's replacement verdict decides |
| `TextField.FormTextField.constructor` | Source/FormTextField.swift:19-70 | a new field is enabled and valid, every colour property holds the default, the background shown is clear, the text is empty, no formatter, validator or delegate is set and the input type is Default |
| `TextField.FormTextField.Notify` | Source/FormTextField.swift:47 | a notification reaches the delegate only while one is attached |
| `TextField.FormTextField.UpdateEnabled` | Source/FormTextField.swift:146-156 | the shown triple becomes the enabled or disabled triple |
| `TextField.FormTextField.UpdateValid` | Source/FormTextField.swift:158-168 | the shown triple becomes the valid or invalid triple |
| `TextField.FormTextField.UpdateActive` | Source/FormTextField.swift:132-144 | the shown triple becomes the active or inactive triple |
| `TextField.FormTextField.AssignEnabled` | Source/FormTextField.swift:86-90 | `enabled` takes the new value and the enabled or disabled triple is shown, as `Step` prescribes; nothing else changes |
| `TextField.FormTextField.AssignValid` | Source/FormTextField.swift:92-98 | `valid` takes the new value; the valid or invalid triple is shown while enabled and the shown colours are untouched while disabled |
| `TextField.FormTextField.AssignColor` | Source/FormTextField.swift:21-43 | the palette is `Recolor`ed; enabled and disabled colours repaint with the triple for the current `enabled`, the others repaint nothing |
| `TextField.FormTextField.UpdateText` | Source/FormTextField.swift:106-128 | the text and selection become those `Reconcile` gives; nothing else changes |
| `TextField.FormTextField.Validate` | Source/FormTextField.swift:170-179 | returns the validator's verdict (true without a validator) and leaves `valid` equal to it, repainting as an assignment of `valid` does |
| `TextField.FormTextField.TextFieldDidUpdate` | Source/FormTextField.swift:183-191 | the text is reconciled against itself, `valid` ends true, the colours change only if the field was invalid (and then only while enabled), and the delegate is told the new text |
| `TextField.FormTextField.TextFieldDidReturn` | Source/FormTextField.swift:193-195 | the delegate is told that Return was pressed |
| `TextField.FormTextField.ClearButtonAction` | Source/FormTextField.swift:199-203 | nil is written to the text, which then reads back as `""`; `valid` is untouched and the delegate is told `""` |
| `TextField.FormTextField.TextFieldDidBeginEditing` | Source/FormTextField.swift:209-213 | the active triple is shown regardless of `enabled` or `valid`; the delegate is not told |
| `TextField.FormTextField.TextFieldDidEndEditing` | Source/FormTextField.swift:215-219 | the inactive triple is shown, then the delegate is told |
| `TextField.FormTextField.ShouldChangeCharacters` | Source/FormTextField.swift:221-232 | the gate's answer for the field's current text and validator, which is always true for a lone newline |

## Left out

- Rendering: the conversion of colours to `CGColor`, `borderWidth`, `cornerRadius`,
  `accessoryButtonColor`, the padding view and margin constants, `returnKeyType`, `rightViewMode`,
  the `rightView` assignments and the target/action wiring are platform plumbing with no decisions
  in them. Colours are an opaque type parameter.
- `customClearButton` and `FormTextFieldClearButton.imageForSize`: image drawing;
  `FormTextFieldClearButton` is not part of this model.
- The formatter and validator libraries are not part of this model; they appear only as function
  values that the field calls.
- Selections are offsets, not platform text positions: "the selection starts at
  `positionFromPosition(beginningOfDocument, offset: 1)`" is modelled as "its start offset is 1".
  Where the platform puts the selection after a text write that is not followed by a restore is not
  modelled; it is the parameter `placed`.
- `Editing.Reconcile`: the source force-unwraps the selection (`selectedTextRange!`) when a formatter
  is set, and the program stops when there is none. The model does not model that crash; it
  requires a selection whenever a formatter is set (also on `UpdateText` and `TextFieldDidUpdate`).
- Selections are not tied to the text: nothing requires a selection to lie within the text it
  selects. Only the existence of offset 1 is checked against the text's length.
- Lengths are counted in `char`s; Swift's `characters.count` counts grapheme clusters.
- The platform's own editing (writing the typed text before the edit event fires) is not modelled:
  the host assigns `text` and `selection` directly.
- The delegate itself: only the sequence of notifications it receives is recorded.
- `init(coder:)`, which stops the program, is not modelled.
- The `inputType` observer calls `updateInputType`, which is not part of this model; `inputType`
  is only stored.
