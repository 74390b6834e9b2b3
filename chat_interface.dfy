/** The main chat screen. The chat store itself (history, messages, loading flag
    and the operations that change them) belongs to the `useChatManagement` hook,
    which is not part of this model: its data arrive as parameters and its
    operations appear only as the calls this screen makes. What is modelled is
    the screen's own logic: the header title, the rename flow with its
    captured chat, the guards on export and share, and which parts of the main
    pane are shown. */
module ChatInterface {
  import opened Basics
  import opened Text
  import opened ChatSidebar
  import opened RenameDialog
  import ChatInput
  import FilePreview

  /** JavaScript truthiness of `currentChatId`: `null` and the empty id both
      count as "no current chat". */
  predicate IsActiveId(currentChatId: Option<string>)
    ensures IsActiveId(currentChatId) <==> currentChatId.Some? && |currentChatId.value| > 0
  {
    currentChatId.Some? && currentChatId.value != ""
  }

  /** `chatHistory.findIndex(c => c.id === chatId)`: the position of the first
      chat with that id, if any. */
  function FindIndex(history: seq<ChatSummary>, chatId: string): (found: Option<nat>)
    ensures found.Some? ==>
      found.value < |history| && history[found.value].id == chatId
      && forall j :: 0 <= j < found.value ==> history[j].id != chatId
    ensures found.None? ==> forall j :: 0 <= j < |history| ==> history[j].id != chatId
    decreases |history|
  {
    if history == [] then None
    else if history[0].id == chatId then Some(0)
    else match FindIndex(history[1..], chatId)
      case None => None
      case Some(k) => Some(k + 1)
  }

  /** `chatHistory.find(c => c.id === chatId)`. */
  function FindChat(history: seq<ChatSummary>, chatId: string): (found: Option<ChatSummary>)
    ensures found.None? <==> forall j :: 0 <= j < |history| ==> history[j].id != chatId
    ensures found.Some? ==> found.value in history && found.value.id == chatId
    ensures found.Some? ==>
      (exists k :: 0 <= k < |history| && found.value == history[k]
         && (forall j :: 0 <= j < k ==> history[j].id != chatId))
  {
    match FindIndex(history, chatId)
    case None => None
    case Some(k) => Some(history[k])
  }

  /** The header: "MeTTa AI Assistant" with no current chat; the current chat's
      title when the chat is found and its title is not empty; "Chat" otherwise.
      The header is never blank. */
  function HeaderTitle(currentChatId: Option<string>, history: seq<ChatSummary>): (title: string)
    ensures title != ""
    ensures !IsActiveId(currentChatId) ==> title == "MeTTa AI Assistant"
    ensures IsActiveId(currentChatId) && FindChat(history, currentChatId.value).Some?
      && FindChat(history, currentChatId.value).value.title != ""
      ==> title == FindChat(history, currentChatId.value).value.title
    ensures IsActiveId(currentChatId)
      && (FindChat(history, currentChatId.value).None?
          || FindChat(history, currentChatId.value).value.title == "")
      ==> title == "Chat"
  {
    if IsActiveId(currentChatId) then
      match FindChat(history, currentChatId.value)
      case Some(chat) => if chat.title != "" then chat.title else "Chat"
      case None => "Chat"
    else "MeTTa AI Assistant"
  }

  /** The chat captured for renaming: its id and its title at capture time. */
  datatype RenameTarget = RenameTarget(id: string, title: string)

  /** The `renameChat(id, newTitle)` call made to the chat store. */
  datatype RenameCall = RenameCall(chatId: string, newTitle: string)

  /** The `currentTitle` prop given to the rename dialog. */
  function DialogTitleProp(target: Option<RenameTarget>): (prop: string)
    ensures target.Some? ==> prop == target.value.title
    ensures target.None? ==> prop == ""
  {
    if target.Some? then target.value.title else ""
  }

  /** What the screen's export action does. */
  datatype ExportOutcome =
    | NoChatToExport                        // no current chat: exportChat is not called
    | ExportFailed(chatId: string)          // exportChat(chatId) gave nothing to download
    | Downloaded(chatId: string, text: string)

  /** `handleExportChat`, with the store's `exportChat` as a parameter (its
      answer `None` is `undefined`). */
  function HandleExportChat(currentChatId: Option<string>, exportChat: string -> Option<string>)
    : (outcome: ExportOutcome)
    ensures outcome.NoChatToExport? <==> !IsActiveId(currentChatId)
    ensures outcome.ExportFailed? ==>
      outcome.chatId == currentChatId.value && exportChat(outcome.chatId) in {None, Some("")}
    ensures outcome.Downloaded? ==>
      outcome.chatId == currentChatId.value && exportChat(outcome.chatId) == Some(outcome.text)
      && outcome.text != ""
  {
    if !IsActiveId(currentChatId) then NoChatToExport
    else
      var chatText := exportChat(currentChatId.value);
      if chatText.None? || chatText.value == "" then ExportFailed(currentChatId.value)
      else Downloaded(currentChatId.value, chatText.value)
  }

  /** The toast each export outcome raises. */
  function ExportToast(outcome: ExportOutcome): (toast: string)
    ensures toast == "Chat exported successfully!" <==> outcome.Downloaded?
    ensures toast == "No active chat to export!" <==> outcome.NoChatToExport?
    ensures toast == "Failed to export chat!" <==> outcome.ExportFailed?
  {
    match outcome
    case NoChatToExport => "No active chat to export!"
    case ExportFailed(_) => "Failed to export chat!"
    case Downloaded(_, _) => "Chat exported successfully!"
  }

  /** Export reports an error without a download exactly when there is no
      current chat or the store gave an empty or absent text. */
  lemma ExportErrorIffNothingToDownload(currentChatId: Option<string>, exportChat: string -> Option<string>)
    ensures var outcome := HandleExportChat(currentChatId, exportChat);
      ExportToast(outcome) != "Chat exported successfully!" <==>
        !IsActiveId(currentChatId) || exportChat(currentChatId.value) in {None, Some("")}
  {
  }

  /** What a share action does: with a chat, the store's `shareChat(chatId)` URL
      is copied to the clipboard. */
  datatype ShareOutcome = NoChatToShare | Shared(chatId: string, url: string)

  /** `handleShareChat` (from a sidebar entry): always shares that chat. */
  function HandleShareChat(chatId: string, shareChat: string -> string): (outcome: ShareOutcome)
    ensures outcome.Shared? && outcome.chatId == chatId && outcome.url == shareChat(chatId)
  {
    Shared(chatId, shareChat(chatId))
  }

  /** `handleShareCurrentChat`: shares the current chat, or reports that there is
      none without calling `shareChat`. */
  function HandleShareCurrentChat(currentChatId: Option<string>, shareChat: string -> string)
    : (outcome: ShareOutcome)
    ensures outcome.NoChatToShare? <==> !IsActiveId(currentChatId)
    ensures outcome.Shared? ==> outcome == HandleShareChat(currentChatId.value, shareChat)
  {
    if IsActiveId(currentChatId) then HandleShareChat(currentChatId.value, shareChat)
    else NoChatToShare
  }

  /** The toast each share outcome raises. */
  function ShareToast(outcome: ShareOutcome): (toast: string)
    ensures toast == "Share link copied to clipboard!" <==> outcome.Shared?
    ensures toast == "No active chat to share!" <==> outcome.NoChatToShare?
  {
    match outcome
    case NoChatToShare => "No active chat to share!"
    case Shared(_, _) => "Share link copied to clipboard!"
  }

  /** Sharing the current chat reports success exactly when there is a current
      chat, and the link copied is then the store's link for that chat. */
  lemma ShareSuccessIffActive(currentChatId: Option<string>, shareChat: string -> string)
    ensures var outcome := HandleShareCurrentChat(currentChatId, shareChat);
      && (ShareToast(outcome) == "Share link copied to clipboard!" <==> IsActiveId(currentChatId))
      && (IsActiveId(currentChatId) ==> outcome == Shared(currentChatId.value, shareChat(currentChatId.value)))
  {
  }

  /** Which parts of the main pane are shown. */
  datatype MainPane = MainPane(starterPrompts: bool, loadingIndicator: bool, inputDisabled: bool)

  /** Starter prompts replace the thread exactly when there are no messages; the
      loading placeholder follows the thread only while a reply is pending; the
      input is disabled exactly while loading. */
  function Layout(messageCount: nat, isLoading: bool): (pane: MainPane)
    ensures pane.starterPrompts <==> messageCount == 0
    ensures pane.loadingIndicator <==> messageCount > 0 && isLoading
    ensures pane.inputDisabled <==> isLoading
  {
    MainPane(messageCount == 0, messageCount > 0 && isLoading, isLoading)
  }

  /** While a reply is loading, nothing the composer holds can be sent. */
  lemma NoSendWhileLoading(messageCount: nat, input: string, files: seq<FilePreview.File>)
    ensures !ChatInput.CanSend(input, files, Layout(messageCount, true).inputDisabled)
  {
  }

  /** The screen's own state for the rename flow, and the rename dialog it
      renders (the dialog keeps its own state between openings). */
  class Screen {
    var renameDialogOpen: bool
    var chatToRename: Option<RenameTarget>
    const dialog: Dialog

    /** The dialog has been given the screen's current `currentTitle` prop. */
    ghost predicate Valid()
      reads this, dialog
    {
      dialog.currentTitle == DialogTitleProp(chatToRename)
    }

    constructor ()
      ensures Valid() && fresh(dialog)
      ensures !renameDialogOpen && chatToRename.None? && dialog.title == ""
    {
      renameDialogOpen := false;
      chatToRename := None;
      dialog := new Dialog("");
    }

    /** `handleRenameChat`: for a chat in the history, captures its id and title
        and opens the dialog; an unknown id changes nothing. The dialog's edited
        title is reset only if the captured title differs from the prop it had,
        so re-opening after a Cancel with the same title keeps the old draft. */
    method HandleRenameChat(chatId: string, history: seq<ChatSummary>) returns (found: bool)
      requires Valid()
      modifies this, dialog
      ensures Valid()
      ensures found <==> exists j :: 0 <= j < |history| && history[j].id == chatId
      ensures found ==>
        && renameDialogOpen
        && chatToRename == Some(RenameTarget(chatId, FindChat(history, chatId).value.title))
        && dialog.title == (if chatToRename.value.title != old(dialog.currentTitle)
                            then chatToRename.value.title else old(dialog.title))
      ensures !found ==>
        && renameDialogOpen == old(renameDialogOpen) && chatToRename == old(chatToRename)
        && dialog.title == old(dialog.title)
    {
      var chat := FindChat(history, chatId);
      if chat.Some? {
        chatToRename := Some(RenameTarget(chatId, chat.value.title));
        renameDialogOpen := true;
        dialog.ReceiveCurrentTitle(DialogTitleProp(chatToRename));
        found := true;
      } else {
        found := false;
      }
    }

    /** `confirmRename`: calls `renameChat` with the captured id and the new
        title only when a chat is captured; always closes the dialog and clears
        the capture (which resets the dialog's prop to ""). */
    method ConfirmRename(newTitle: string) returns (call: Option<RenameCall>, toast: Option<string>)
      requires Valid()
      modifies this, dialog
      ensures Valid() && !renameDialogOpen && chatToRename.None?
      ensures call.Some? <==> old(chatToRename).Some?
      ensures call.Some? ==> call.value == RenameCall(old(chatToRename).value.id, newTitle)
      ensures toast == if call.Some? then Some("Chat renamed!") else None
      ensures dialog.title == if old(dialog.currentTitle) != "" then "" else old(dialog.title)
    {
      if chatToRename.Some? {
        call := Some(RenameCall(chatToRename.value.id, newTitle));
        toast := Some("Chat renamed!");
      } else {
        call, toast := None, None;
      }
      renameDialogOpen := false;
      chatToRename := None;
      dialog.ReceiveCurrentTitle("");
    }

    /** The dialog's Save: a non-blank draft is confirmed trimmed (through
        `confirmRename`) and the dialog closes; a blank draft does nothing. */
    method SubmitRename() returns (call: Option<RenameCall>, toast: Option<string>)
      requires Valid()
      modifies this, dialog
      ensures Valid()
      ensures call.Some? <==> old(chatToRename).Some? && !AllWhitespace(old(dialog.title))
      ensures call.Some? ==> call.value == RenameCall(old(chatToRename).value.id, Trim(old(dialog.title)))
      ensures toast == if call.Some? then Some("Chat renamed!") else None
      ensures !AllWhitespace(old(dialog.title)) ==> !renameDialogOpen && chatToRename.None?
      ensures !AllWhitespace(old(dialog.title)) ==>
        dialog.title == if old(dialog.currentTitle) != "" then "" else old(dialog.title)
      ensures AllWhitespace(old(dialog.title)) ==>
        && toast.None? && renameDialogOpen == old(renameDialogOpen)
        && chatToRename == old(chatToRename) && dialog.title == old(dialog.title)
    {
      var out := dialog.HandleSubmit();
      if out.confirmed.Some? {
        call, toast := ConfirmRename(out.confirmed.value);
      } else {
        call, toast := None, None;
      }
      if out.closeRequested {
        renameDialogOpen := false;
      }
    }

    /** The dialog's Cancel (`onOpenChange(false)`): closes the dialog without
        confirming; the captured chat and the dialog's draft stay as they are. */
    method CancelRename()
      requires Valid()
      modifies this`renameDialogOpen
      ensures Valid() && !renameDialogOpen
      ensures chatToRename == old(chatToRename)
    {
      var out := CancelOutput();
      if out.closeRequested {
        renameDialogOpen := false;
      }
    }
  }

  /** Opening the rename dialog for a chat, typing a draft, cancelling and
      opening it again for the same chat shows the abandoned draft rather than
      the chat's title: the captured title, and so the dialog's prop, did not
      change, so the reset effect does not run. */
  method ReopenAfterCancel(history: seq<ChatSummary>, chatId: string, draft: string)
    returns (shownTitle: string)
    requires exists j :: 0 <= j < |history| && history[j].id == chatId
    ensures shownTitle == draft
  {
    var screen := new Screen();
    var found := screen.HandleRenameChat(chatId, history);
    screen.dialog.Edit(draft);
    screen.CancelRename();
    found := screen.HandleRenameChat(chatId, history);
    shownTitle := screen.dialog.title;
  }
}
