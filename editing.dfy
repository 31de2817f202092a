/**
  * Text reconciliation: after an edit, a FormTextField runs its text through the injected
  * formatter and decides whether to put the previous selection back.
  */
module Editing {
  import opened Wrappers

  /** An injected formatter's `formatString(_:reverse:)`. */
  type Formatter = (string, bool) -> string

  /**
    * A selected range of the document: where it starts, as a character offset from the beginning,
    * and how many characters it covers. The field only compares its start and restores it whole.
    */
  datatype TextRange = TextRange(start: nat, length: nat)

  /**
    * The selection starts at the position one past the beginning of a document of `textLength`
    * characters. On an empty document that position does not exist (the platform answers nil), so
    * no selection is at it.
    */
  predicate CursorAtStart(selection: TextRange, textLength: nat) {
    1 <= textLength && selection.start == 1
  }

  /**
    * Whether `updateText` puts the previous selection back, given the length of the formatted text
    * and of the text the field held before. The two "grew" tests of the source are the same
    * comparison, so the selection is dropped only when the text grew with the cursor away from
    * offset 1 (or the old text was empty, so that offset 1 did not exist).
    */
  function KeepsSelection(formattedLength: nat, currentLength: nat, selection: TextRange): (keep: bool)
    ensures keep <==> (formattedLength <= currentLength || (currentLength >= 1 && selection.start == 1))
  {
    var didAddText := formattedLength > currentLength;
    var didFormat := formattedLength > currentLength;
    if didAddText && CursorAtStart(selection, currentLength) then true
    else if didAddText && didFormat then false
    else true
  }

  /** The text and selection a field holds after `updateText`. */
  datatype Reconciled = Reconciled(text: string, selection: Option<TextRange>)

  /**
    * `updateText(newValue)` on a field holding `current` with `selection`. The text is always
    * written; `placed` is the selection the platform leaves after a text write that is not
    * followed by a restore. With a formatter the source force-unwraps the selection, so a
    * selection must exist then.
    */
  function Reconcile(formatter: Option<Formatter>, current: Option<string>, newValue: Option<string>,
                     selection: Option<TextRange>, placed: Option<TextRange>): (r: Reconciled)
    requires formatter.Some? ==> selection.Some?
    ensures formatter.None? ==> r.text == newValue.GetOr("") && r.selection == placed
    ensures formatter.Some? ==> r.text == formatter.value(newValue.GetOr(""), false)
    ensures formatter.Some? ==>
      r.selection == if |r.text| <= |current.GetOr("")| || CursorAtStart(selection.value, |current.GetOr("")|)
                     then selection else placed
  {
    var text := newValue.GetOr("");
    match formatter
    case None => Reconciled(text, placed)
    case Some(format) =>
      var formatted := format(text, false);
      if KeepsSelection(|formatted|, |current.GetOr("")|, selection.value)
      then Reconciled(formatted, selection)
      else Reconciled(formatted, placed)
  }

  /**
    * Reconciling text that is already formatted and unchanged is a no-op: running the result
    * through `updateText` again, with the formatter fixing its own output, yields the same text and
    * keeps the same selection.
    */
  lemma ReconcileStable(format: Formatter, current: Option<string>, newValue: Option<string>,
                        selection: TextRange, placed: TextRange, placedAgain: Option<TextRange>)
    requires format(format(newValue.GetOr(""), false), false) == format(newValue.GetOr(""), false)
    ensures var once := Reconcile(Some(format), current, newValue, Some(selection), Some(placed));
            var twice := Reconcile(Some(format), Some(once.text), Some(once.text), once.selection, placedAgain);
            twice == once
  {
    var once := Reconcile(Some(format), current, newValue, Some(selection), Some(placed));
    assert once.selection.Some?;
    assert KeepsSelection(|once.text|, |once.text|, once.selection.value);
  }

  /**
    * A formatter that inserts text (a mask prefix, a separator) while the cursor sits at offset 1
    * leaves the cursor pinned where it was.
    */
  lemma PinnedAtStart(format: Formatter, current: Option<string>, newValue: Option<string>,
                      selection: TextRange, placed: Option<TextRange>)
    requires |format(newValue.GetOr(""), false)| > |current.GetOr("")|
    requires CursorAtStart(selection, |current.GetOr("")|)
    ensures Reconcile(Some(format), current, newValue, Some(selection), placed).selection == Some(selection)
  {
  }

  /**
    * On an empty document there is no position at offset 1, so when formatting makes the text
    * longer the previous selection is dropped even if it started at offset 1.
    */
  lemma EmptyTextDropsSelection(format: Formatter, current: Option<string>, newValue: Option<string>,
                                selection: TextRange, placed: Option<TextRange>)
    requires current.GetOr("") == ""
    requires format(newValue.GetOr(""), false) != ""
    ensures Reconcile(Some(format), current, newValue, Some(selection), placed).selection == placed
  {
  }
}
