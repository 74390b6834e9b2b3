/** The rename dialog: an editable title seeded from the `currentTitle` it is
    given, a Save that confirms the trimmed title only when it is not blank,
    and a Cancel that only asks to close. */
module RenameDialog {
  import opened Basics
  import opened Text

  /** What one button press sends to the owner: the `onConfirm(title)` call,
      if any, and whether `onOpenChange(false)` is called. */
  datatype DialogOutput = DialogOutput(confirmed: Option<string>, closeRequested: bool)

  /** `handleSubmit`: a non-blank title is confirmed trimmed and the dialog asks
      to close; a blank one (empty or whitespace only) sends nothing. */
  function SubmitOutput(title: string): (out: DialogOutput)
    ensures out.confirmed.Some? <==> !AllWhitespace(title)
    ensures out.confirmed.Some? ==> out.confirmed.value == Trim(title) && out.confirmed.value != ""
    ensures out.closeRequested <==> out.confirmed.Some?
  {
    if Trim(title) != "" then DialogOutput(Some(Trim(title)), true) else DialogOutput(None, false)
  }

  /** Cancel asks to close and confirms nothing. */
  function CancelOutput(): (out: DialogOutput)
    ensures out.confirmed.None? && out.closeRequested
  {
    DialogOutput(None, true)
  }

  /** The Save button's `disabled` attribute. */
  predicate SaveDisabled(title: string)
    ensures SaveDisabled(title) <==> AllWhitespace(title)
  {
    Trim(title) == ""
  }

  /** Save is disabled exactly when submitting would confirm nothing. */
  lemma SaveDisabledMatchesSubmit(title: string)
    ensures SaveDisabled(title) <==> SubmitOutput(title).confirmed.None?
  {
  }

  /** The confirmed title is already trimmed: trimming it again changes nothing. */
  lemma ConfirmedTitleIsTrimmed(title: string)
    requires SubmitOutput(title).confirmed.Some?
    ensures Trim(SubmitOutput(title).confirmed.value) == SubmitOutput(title).confirmed.value
  {
    TrimIdempotent(title);
  }

  /** The dialog's state: the last `currentTitle` it was given and the title
      being edited. */
  class Dialog {
    var currentTitle: string
    var title: string

    constructor (currentTitle: string)
      ensures this.currentTitle == currentTitle && title == currentTitle
    {
      this.currentTitle := currentTitle;
      title := currentTitle;
    }

    /** A render with the `currentTitle` prop: the effect resets the edited title
        only when the prop differs from the previous one. */
    method ReceiveCurrentTitle(newCurrentTitle: string)
      modifies this
      ensures currentTitle == newCurrentTitle
      ensures title == if newCurrentTitle != old(currentTitle) then newCurrentTitle else old(title)
    {
      if newCurrentTitle != currentTitle {
        title := newCurrentTitle;
      }
      currentTitle := newCurrentTitle;
    }

    /** The input's `onChange`. */
    method Edit(text: string)
      modifies this`title
      ensures title == text
    {
      title := text;
    }

    /** Pressing Save (submitting the form). The dialog's own state is unchanged. */
    method HandleSubmit() returns (out: DialogOutput)
      ensures out == SubmitOutput(title)
    {
      out := SubmitOutput(title);
    }
  }
}
