/**
  * The FormTextField widget with the platform taken away: a field that keeps its enabled and
  * valid flags, its text and selection, its configured colours and the colours it shows, and
  * updates them in place as events arrive.
  */
module TextField {
  import opened Wrappers
  import opened Appearance
  import opened Editing
  import opened Validation

  /** The kinds of input a field is configured for; carried, never interpreted by the field. */
  datatype InputType = Default | Name | Username | PhoneNumber | Integer | Decimal | Address | Email | Password | Unknown

  /** What the field tells its delegate, in the order it tells it. */
  datatype Notification = DidEndEditing | DidUpdate(text: Option<string>) | DidReturn

  class FormTextField<C> {
    var enabled: bool
    var valid: bool
    /** The eighteen colour properties, grouped into six triples. */
    var palette: Palette<C>
    /** The layer's background and border colours and the text colour currently shown. */
    var shown: Triple<C>
    /**
      * The text as the platform's getter reads it back. The property is declared optional, but the
      * getter never answers nil: after a nil write it reads back as the empty string.
      */
    var text: string
    var selection: Option<TextRange>
    var inputType: InputType
    var formatter: Option<Formatter>
    var inputValidator: Option<Validator>
    /** Whether a delegate is attached (the field holds it weakly, so it may be gone). */
    var hasDelegate: bool
    /** The notifications delivered to the delegate so far. */
    var notifications: seq<Notification>

    /** The part of the field's state that decides what it shows. */
    ghost function AppearanceState(): State<C>
      reads this
    {
      State(enabled, valid, palette, shown)
    }

    /**
      * A new field: every colour property is `red`, nothing has been repainted yet, so the field
      * shows a clear background and the platform's default border and text colours.
      */
    constructor (red: C, clear: C, hostBorder: C, hostText: C)
      ensures palette == Uniform(red)
      ensures shown == Triple(clear, hostBorder, hostText)
      ensures enabled && valid
      ensures text == "" && selection.None?
      ensures inputType == Default && formatter.None? && inputValidator.None?
      ensures !hasDelegate && notifications == []
    {
      enabled, valid := true, true;
      palette := Uniform(red);
      shown := Triple(clear, hostBorder, hostText);
      text, selection := "", None;
      inputType := Default;
      formatter, inputValidator := None, None;
      hasDelegate, notifications := false, [];
    }

    /** A call through the optional delegate: delivered only while one is attached. */
    method Notify(n: Notification)
      modifies this`notifications
      ensures notifications == old(notifications) + if hasDelegate then [n] else []
    {
      if hasDelegate {
        notifications := notifications + [n];
      }
    }

    method UpdateEnabled(enabled: bool)
      modifies this`shown
      ensures shown == EnabledColors(palette, enabled)
    {
      shown := shown.(border := if enabled then palette.enabled.border else palette.disabled.border);
      shown := shown.(background := if enabled then palette.enabled.background else palette.disabled.background);
      shown := shown.(text := if enabled then palette.enabled.text else palette.disabled.text);
    }

    method UpdateValid(valid: bool)
      modifies this`shown
      ensures shown == ValidColors(palette, valid)
    {
      var t := if valid then palette.valid else palette.invalid;
      shown := shown.(background := t.background);
      shown := shown.(border := t.border);
      shown := shown.(text := t.text);
    }

    method UpdateActive(active: bool)
      modifies this`shown
      ensures shown == ActiveColors(palette, active)
    {
      var t := if active then palette.active else palette.inactive;
      shown := shown.(background := t.background);
      shown := shown.(border := t.border);
      shown := shown.(text := t.text);
    }

    /** `enabled = b`: the observer always repaints with the enabled or disabled triple. */
    method AssignEnabled(b: bool)
      modifies this`enabled, this`shown
      ensures AppearanceState() == Step(old(AppearanceState()), EnabledSet(b))
      ensures enabled == b
      ensures shown == if b then palette.enabled else palette.disabled
    {
      enabled := b;
      UpdateEnabled(enabled);
    }

    /** `valid = b`: the observer repaints with the valid or invalid triple only while enabled. */
    method AssignValid(b: bool)
      modifies this`valid, this`shown
      ensures AppearanceState() == Step(old(AppearanceState()), ValidSet(b))
      ensures valid == b
      ensures enabled ==> shown == if b then palette.valid else palette.invalid
      ensures !enabled ==> shown == old(shown)
    {
      valid := b;
      if enabled {
        UpdateValid(valid);
      }
    }

    /**
      * Assigning one colour property. Only the enabled and disabled properties have an observer;
      * it repaints with the triple for the current `enabled`, including the new colour.
      */
    method AssignColor(role: Role, part: Part, c: C)
      modifies this`palette, this`shown
      ensures AppearanceState() == Step(old(AppearanceState()), ColorSet(role, part, c))
      ensures palette == Recolor(old(palette), role, part, c)
      ensures (role == Enabled || role == Disabled) ==> shown == EnabledColors(palette, enabled)
      ensures !(role == Enabled || role == Disabled) ==> shown == old(shown)
    {
      palette := Recolor(palette, role, part, c);
      if role == Enabled || role == Disabled {
        UpdateEnabled(enabled);
      }
    }

    /**
      * `updateText(newValue)`: writes the (formatted) text and, with a formatter, puts the old
      * selection back unless the text grew with the cursor away from offset 1. `placed` is the
      * selection the platform leaves after writing the text.
      */
    method UpdateText(newValue: Option<string>, placed: Option<TextRange>)
      requires formatter.Some? ==> selection.Some?
      modifies this`text, this`selection
      ensures var r := Reconcile(formatter, Some(old(text)), newValue, old(selection), placed);
              text == r.text && selection == r.selection
    {
      var raw := newValue.GetOr("");
      if formatter.Some? {
        var textRange := selection;
        var newRawText := formatter.value(raw, false);
        var didAddText := |newRawText| > |text|;
        var didFormat := |newRawText| > |text|;
        var cursorAtStart := CursorAtStart(selection.value, |text|);
        if didAddText && cursorAtStart {
          text, selection := newRawText, placed;
          selection := textRange;
        } else if didAddText && didFormat {
          text, selection := newRawText, placed;
        } else {
          text, selection := newRawText, placed;
          selection := textRange;
        }
      } else {
        text, selection := raw, placed;
      }
    }

    /** `validate()`: asks the validator about the text, stores the verdict in `valid`, returns it. */
    method Validate() returns (isValid: bool)
      modifies this`valid, this`shown
      ensures isValid == Verdict(inputValidator, Some(text))
      ensures inputValidator.None? ==> isValid
      ensures valid == isValid
      ensures AppearanceState() == Step(old(AppearanceState()), ValidSet(isValid))
    {
      isValid := true;
      if inputValidator.Some? {
        isValid := inputValidator.value.validateString(text);
      }
      AssignValid(isValid);
    }

    /**
      * The text changed under the user's hands: reformat it, mark the field valid again (which
      * repaints only if it was invalid and is enabled), and tell the delegate the new text.
      */
    method TextFieldDidUpdate(placed: Option<TextRange>)
      requires formatter.Some? ==> selection.Some?
      modifies this`text, this`selection, this`valid, this`shown, this`notifications
      ensures var r := Reconcile(formatter, Some(old(text)), Some(old(text)), old(selection), placed);
              text == r.text && selection == r.selection
      ensures valid
      ensures AppearanceState() ==
        if old(valid) then old(AppearanceState()) else Step(old(AppearanceState()), ValidSet(true))
      ensures notifications == old(notifications) + if hasDelegate then [DidUpdate(Some(text))] else []
    {
      UpdateText(Some(text), placed);
      if valid == false {
        AssignValid(true);
      }
      Notify(DidUpdate(Some(text)));
    }

    /** Return was pressed: the delegate is told. */
    method TextFieldDidReturn()
      modifies this`notifications
      ensures notifications == old(notifications) + if hasDelegate then [DidReturn] else []
    {
      Notify(DidReturn);
    }

    /**
      * The clear button: nil is written to the text, which then reads back as empty, and the delegate
      * is told the text read back; `valid` is left alone.
      */
    method ClearButtonAction(placed: Option<TextRange>)
      modifies this`text, this`selection, this`notifications
      ensures text == "" && selection == placed
      ensures notifications == old(notifications) + if hasDelegate then [DidUpdate(Some(""))] else []
    {
      var written: Option<string> := None;
      text, selection := written.GetOr(""), placed;
      Notify(DidUpdate(Some(text)));
    }

    /** Editing began: paint the active triple. The delegate is not told. */
    method TextFieldDidBeginEditing()
      modifies this`shown
      ensures AppearanceState() == Step(old(AppearanceState()), FocusChanged(true))
      ensures shown == palette.active
    {
      UpdateActive(true);
    }

    /** Editing ended: paint the inactive triple, then tell the delegate. */
    method TextFieldDidEndEditing()
      modifies this`shown, this`notifications
      ensures AppearanceState() == Step(old(AppearanceState()), FocusChanged(false))
      ensures shown == palette.inactive
      ensures notifications == old(notifications) + if hasDelegate then [DidEndEditing] else []
    {
      UpdateActive(false);
      Notify(DidEndEditing);
    }

    /** The keystroke gate for an edit replacing `range` of the text with `replacement`. */
    method ShouldChangeCharacters(range: NSRange, replacement: string) returns (accept: bool)
      ensures accept == AcceptsReplacement(inputValidator, Some(text), range, replacement)
      ensures replacement == "\n" ==> accept
    {
      if replacement == "\n" {
        return true;
      }
      accept := true;
      if inputValidator.Some? {
        accept := inputValidator.value.validateReplacementString(replacement, Some(text), range);
      }
    }
  }
}
