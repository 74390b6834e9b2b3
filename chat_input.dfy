/** The message composer: a text field and a list of attached files, held as
    component state and changed by sending, dictation, file selection and file
    removal. `onSend` and the toasts are returned to the caller. */
module ChatInput {
  import opened Basics
  import opened Text
  import opened FilePreview

  /** The `onSend(text, files)` call; `files` is absent when nothing is attached. */
  datatype Outgoing = Outgoing(text: string, files: Option<seq<File>>)

  /** What `validateFile` answers for one file. */
  datatype Validation = Validation(valid: bool, error: string)

  /** The toasts raised while selecting files: one error per rejected file, then
      one success toast with the number of files added. */
  datatype Toast = RejectedToast(text: string) | AddedToast(text: string)

  /** The send guard: something to send (non-blank text or a file) and the
      input is not disabled. */
  predicate CanSend(input: string, files: seq<File>, disabled: bool)
    ensures CanSend(input, files, disabled) <==> (!AllWhitespace(input) || files != []) && !disabled
  {
    (Trim(input) != "" || |files| > 0) && !disabled
  }

  /** The send button's `disabled` attribute. */
  predicate SendButtonDisabled(input: string, files: seq<File>, disabled: bool)
    ensures SendButtonDisabled(input, files, disabled) <==> disabled || (AllWhitespace(input) && files == [])
  {
    disabled || (Trim(input) == "" && |files| == 0)
  }

  /** The send button is disabled exactly when a send would do nothing. */
  lemma SendButtonMatchesGuard(input: string, files: seq<File>, disabled: bool)
    ensures SendButtonDisabled(input, files, disabled) <==> !CanSend(input, files, disabled)
  {
  }

  /** The call a firing send makes: the trimmed text, and the files only when
      there are some. */
  function OutgoingFor(input: string, files: seq<File>): (out: Outgoing)
    ensures out.text == Trim(input)
    ensures out.files.Some? <==> |files| > 0
    ensures out.files.Some? ==> out.files.value == files
  {
    Outgoing(Trim(input), if |files| > 0 then Some(files) else None)
  }

  /** The text field after a dictated transcript: the transcript alone on an empty
      field, otherwise the field, one space, and the transcript. */
  function WithTranscript(prev: string, transcript: string): (next: string)
    ensures prev == "" ==> next == transcript
    ensures prev != "" ==>
      (|next| == |prev| + 1 + |transcript|
       && next[..|prev|] == prev && next[|prev|] == ' ' && next[|prev| + 1..] == transcript)
  {
    prev + (if prev != "" then " " else "") + transcript
  }

  /** The files `validateFile` accepts, in selection order. */
  function Accepted(selected: seq<File>, validate: File -> Validation): (accepted: seq<File>)
    ensures |accepted| <= |selected|
    ensures forall k :: 0 <= k < |accepted| ==> accepted[k] in selected && validate(accepted[k]).valid
    ensures forall k :: 0 <= k < |selected| && validate(selected[k]).valid ==> selected[k] in accepted
  {
    Filter(selected, file => validate(file).valid)
  }

  /** Accepted files keep their selection order and every one of them passed
      validation. */
  lemma AcceptedInSelectionOrder(selected: seq<File>, validate: File -> Validation)
    ensures IsSubsequence(Accepted(selected, validate), selected)
    ensures forall k :: 0 <= k < |Accepted(selected, validate)| ==>
      validate(Accepted(selected, validate)[k]).valid
  {
    FilterIsSubsequence(selected, file => validate(file).valid);
  }

  /** The error toast for each rejected file, in selection order. */
  function Rejections(selected: seq<File>, validate: File -> Validation): (toasts: seq<Toast>)
    ensures |toasts| + |Accepted(selected, validate)| == |selected|
    decreases |selected|
  {
    if selected == [] then []
    else
      var file := selected[0];
      var v := validate(file);
      (if v.valid then [] else [RejectedToast(file.name + ": " + v.error)])
        + Rejections(selected[1..], validate)
  }

  lemma {:induction false} RejectionsAppend(s: seq<File>, t: seq<File>, validate: File -> Validation)
    ensures Rejections(s + t, validate) == Rejections(s, validate) + Rejections(t, validate)
    decreases |s|
  {
    if s == [] {
      assert s + t == t;
    } else {
      assert (s + t)[0] == s[0];
      assert (s + t)[1..] == s[1..] + t;
      RejectionsAppend(s[1..], t, validate);
    }
  }

  /** One more selected file adds itself to the accepted files when valid, and
      an error toast otherwise. */
  lemma SelectOneMore(prefix: seq<File>, file: File, validate: File -> Validation)
    ensures Accepted(prefix + [file], validate) ==
      Accepted(prefix, validate) + (if validate(file).valid then [file] else [])
    ensures Rejections(prefix + [file], validate) ==
      Rejections(prefix, validate) + Rejections([file], validate)
  {
    FilterAppend(prefix, [file], f => validate(f).valid);
    RejectionsAppend(prefix, [file], validate);
  }

  /** The `forEach` over the selection: each accepted file is pushed onto
      `validFiles` and each rejected one raises an error toast. */
  method CollectValidFiles(selected: seq<File>, validate: File -> Validation)
    returns (validFiles: seq<File>, errors: seq<Toast>)
    ensures validFiles == Accepted(selected, validate)
    ensures errors == Rejections(selected, validate)
    ensures forall k :: 0 <= k < |validFiles| ==> validate(validFiles[k]).valid
    ensures |validFiles| + |errors| == |selected|
  {
    validFiles, errors := [], [];
    var i := 0;
    while i < |selected|
      invariant 0 <= i <= |selected|
      invariant validFiles == Accepted(selected[..i], validate)
      invariant errors == Rejections(selected[..i], validate)
    {
      var file := selected[i];
      var validation := validate(file);
      assert selected[..i + 1] == selected[..i] + [file];
      SelectOneMore(selected[..i], file, validate);
      if validation.valid {
        assert Rejections([file], validate) == [];
        validFiles := validFiles + [file];
      } else {
        assert Rejections([file], validate) == [RejectedToast(file.name + ": " + validation.error)];
        errors := errors + [RejectedToast(file.name + ": " + validation.error)];
      }
      i := i + 1;
    }
    assert selected[..i] == selected;
  }

  /** The composer's state. */
  class Composer {
    var input: string
    var files: seq<File>

    constructor ()
      ensures input == "" && files == []
    {
      input := "";
      files := [];
    }

    /** The textarea's `onChange`. */
    method SetInput(text: string)
      modifies this`input
      ensures input == text
    {
      input := text;
    }

    /** `handleSend`: when the guard holds, emits the trimmed text and the
        attached files and clears both; otherwise emits nothing and changes
        nothing. */
    method HandleSend(disabled: bool) returns (sent: Option<Outgoing>)
      modifies this
      ensures sent.Some? <==> CanSend(old(input), old(files), disabled)
      ensures sent.Some? ==>
        (sent.value == OutgoingFor(old(input), old(files)) && input == "" && files == [])
      ensures sent.None? ==> input == old(input) && files == old(files)
    {
      if (Trim(input) != "" || |files| > 0) && !disabled {
        sent := Some(OutgoingFor(input, files));
        input := "";
        files := [];
      } else {
        sent := None;
      }
    }

    /** `handleKeyDown`: Enter without Shift suppresses the newline and performs
        the guarded send; any other key is left to the textarea. */
    method HandleKeyDown(key: string, shift: bool, disabled: bool)
      returns (prevented: bool, sent: Option<Outgoing>)
      modifies this
      ensures prevented <==> key == "Enter" && !shift
      ensures sent.Some? <==> prevented && CanSend(old(input), old(files), disabled)
      ensures sent.Some? ==>
        (sent.value == OutgoingFor(old(input), old(files)) && input == "" && files == [])
      ensures sent.None? ==> input == old(input) && files == old(files)
    {
      if key == "Enter" && !shift {
        prevented := true;
        sent := HandleSend(disabled);
      } else {
        prevented, sent := false, None;
      }
    }

    /** `handleVoiceTranscript`. */
    method HandleVoiceTranscript(transcript: string)
      modifies this`input
      ensures input == WithTranscript(old(input), transcript)
    {
      input := WithTranscript(input, transcript);
    }

    /** `handleFileSelect`: the accepted files are appended after the attached
        ones, in selection order; rejected files are never attached. The
        success toast is raised only when some file was accepted. */
    method HandleFileSelect(selected: seq<File>, validate: File -> Validation)
      returns (toasts: seq<Toast>)
      modifies this`files
      ensures files == old(files) + Accepted(selected, validate)
      ensures toasts == Rejections(selected, validate) +
        (if |Accepted(selected, validate)| > 0
         then [AddedToast(NatToString(|Accepted(selected, validate)|) + " file(s) added")]
         else [])
    {
      var validFiles, errors := CollectValidFiles(selected, validate);
      toasts := errors;
      if |validFiles| > 0 {
        files := files + validFiles;
        toasts := toasts + [AddedToast(NatToString(|validFiles|) + " file(s) added")];
      }
    }

    /** `handleRemoveFile`: removes the file at `index` when there is one; any
        other index leaves the list as it is. */
    method HandleRemoveFile(index: int)
      modifies this`files
      ensures files == DropIndex(old(files), index)
      ensures 0 <= index < |old(files)| ==>
        |files| == |old(files)| - 1 && files == old(files)[..index] + old(files)[index + 1..]
      ensures !(0 <= index < |old(files)|) ==> files == old(files)
    {
      DropIndexSplices(files, index);
      files := DropIndex(files, index);
    }
  }
}
