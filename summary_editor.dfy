/** The summary editor (frontend/src/components/SummaryEditor.jsx): the edited text,
    dirty tracking and the save handlers. `onUpdate` is the parent's callback; whether
    it completed without throwing is a parameter. The two-second debounce timer is not
    modelled: `AutoSave` is the step the timer would run. */
module SummaryEditor {
  import opened Wrappers
  import opened JsText

  /** `Math.abs(editedSummary.length - summary.length)`. */
  function ChangeFigure(edited: string, original: string): (r: nat)
    ensures |edited| >= |original| ==> r == |edited| - |original|
    ensures |edited| < |original| ==> r == |original| - |edited|
    ensures r == 0 <==> |edited| == |original|
  {
    if |edited| >= |original| then |edited| - |original| else |original| - |edited|
  }

  /** The change figure does not care which text is the original. */
  lemma ChangeFigureSymmetric(a: string, b: string)
    ensures ChangeFigure(a, b) == ChangeFigure(b, a)
    ensures ChangeFigure(a, b) <= |a| + |b|
  {
  }

  class Editor {
    var summary: string
    var editedSummary: string
    var isEditing: bool
    var hasChanges: bool
    var isSaving: bool

    /** Between handlers: unsaved changes always differ from the original, and no save
        is in flight. */
    ghost predicate Valid()
      reads this
    {
      (hasChanges ==> editedSummary != summary) && !isSaving
    }

    /** Mounting with the `summary` prop. */
    constructor (initial: string)
      ensures Valid()
      ensures summary == initial && editedSummary == initial && !isEditing && !hasChanges
    {
      summary := initial;
      editedSummary := initial;
      isEditing := false;
      hasChanges := false;
      isSaving := false;
    }

    /** The effect on the `summary` prop: when it changes, the edit buffer is reset to it. */
    method ReceiveSummary(newSummary: string)
      requires Valid()
      modifies this
      ensures Valid() && summary == newSummary && isEditing == old(isEditing)
      ensures newSummary != old(summary) ==> editedSummary == newSummary && !hasChanges
      ensures newSummary == old(summary) ==> editedSummary == old(editedSummary) && hasChanges == old(hasChanges)
    {
      if newSummary != summary {
        summary := newSummary;
        editedSummary := newSummary;
        hasChanges := false;
      }
    }

    /** `handleTextChange`: dirty exactly when the text differs from the original, so
        typing the original back clears it. */
    method HandleTextChange(newValue: string)
      requires Valid()
      modifies this
      ensures Valid() && editedSummary == newValue
      ensures hasChanges <==> newValue != summary
      ensures summary == old(summary) && isEditing == old(isEditing)
    {
      editedSummary := newValue;
      hasChanges := newValue != summary;
    }

    /** `handleSave`: with no changes nothing happens; otherwise the edited text is handed
        to `onUpdate` (`saved`), and only a call that did not throw clears `hasChanges`. */
    method HandleSave(updateOk: bool) returns (saved: Option<string>)
      requires Valid()
      modifies this
      ensures Valid()
      ensures !old(hasChanges) ==> saved == None && hasChanges == old(hasChanges)
      ensures old(hasChanges) ==> saved == Some(editedSummary)
      ensures old(hasChanges) ==> hasChanges == !updateOk
      ensures summary == old(summary) && editedSummary == old(editedSummary) && isEditing == old(isEditing)
    {
      if !hasChanges {
        return None;
      }
      isSaving := true;
      saved := Some(editedSummary);
      if updateOk {
        hasChanges := false;
      }
      isSaving := false;
    }

    /** `autoSave`: also skips when the text equals the original; between handlers that
        second guard never decides anything, so it saves exactly when `handleSave` would. */
    method AutoSave(updateOk: bool) returns (saved: Option<string>)
      requires Valid()
      modifies this
      ensures Valid()
      ensures saved.Some? <==> old(hasChanges)
      ensures !old(hasChanges) ==> hasChanges == old(hasChanges)
      ensures old(hasChanges) ==> saved == Some(editedSummary) && hasChanges == !updateOk
      ensures summary == old(summary) && editedSummary == old(editedSummary) && isEditing == old(isEditing)
    {
      if !hasChanges || editedSummary == summary {
        return None;
      }
      isSaving := true;
      saved := Some(editedSummary);
      if updateOk {
        hasChanges := false;
      }
      isSaving := false;
    }

    /** `handleReset`: back to the original text, nothing pending. */
    method HandleReset()
      requires Valid()
      modifies this
      ensures Valid() && editedSummary == summary && !hasChanges
      ensures summary == old(summary) && isEditing == old(isEditing)
    {
      editedSummary := summary;
      hasChanges := false;
    }

    /** `handleToggleEdit`: leaving edit mode with changes saves them first. */
    method HandleToggleEdit(updateOk: bool) returns (saved: Option<string>)
      requires Valid()
      modifies this
      ensures Valid() && isEditing == !old(isEditing)
      ensures old(isEditing) && old(hasChanges) ==> saved == Some(editedSummary) && hasChanges == !updateOk
      ensures !(old(isEditing) && old(hasChanges)) ==> saved == None && hasChanges == old(hasChanges)
      ensures summary == old(summary) && editedSummary == old(editedSummary)
    {
      saved := None;
      if isEditing && hasChanges {
        saved := HandleSave(updateOk);
      }
      isEditing := !isEditing;
    }
  }
}
