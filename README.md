# Chat front end components: a Dafny model

This project models the decision logic inside the components of a React chat
assistant front end. It covers nine components:

- the chat sidebar's search filter and its placeholder message;
- a chat message's like/dislike toggle and author label;
- the message composer, which holds a text field and a list of attached files;
- the rename dialog;
- the main chat screen: header title, rename flow, and the export/share guards;
- the login, signup and forgot-password forms;
- the attachment preview: icon by extension, and size unit.

The chat store (history, messages, loading flag, and create/select/send/rename/
archive/delete/share/export) lives in the `useChatManagement` hook.
`useChatManagement` is not part of this model. Its data enter as parameters.
Its operations appear only as the calls a component makes (`RenameCall`,
`ExportOutcome`, `ShareOutcome`) or as function-valued parameters (`exportChat`,
`shareChat`). The same holds for the validators `validateEmail`,
`validatePassword` and `validateFile`: they are parameters, so every result holds
whatever they answer.

Callbacks that a component fires (`onSend`, `onConfirm`, `onOpenChange(false)`,
`onFeedback`, `onLogin`, `onSignup`, `onSubmit`) are returned as out-parameters.
Component state that a component updates in place becomes a class. Examples:
`ChatInput.Composer` (`input`, `files`), `ChatMessage.MessageView`
(`currentFeedback`), `RenameDialog.Dialog` (`title`), `ChatInterface.Screen`
(`renameDialogOpen`, `chatToRename`, and the dialog it renders), and the three
`Form` classes (`errors` / `error`).

String operations follow JavaScript (module `Text`):
- `trim` removes exactly the ECMAScript WhiteSpace and LineTerminator code points.
- `includes` and `startsWith` are substring and prefix tests.
- `split('.')` / `join` work on one separator character. Their round trip is proved.
- `password.length` counts UTF-16 code units, so a character above U+FFFF counts 2.
- JavaScript truthiness is written out: an empty `currentChatId` counts as no
  chat, and an empty exported text counts as a failed export.

Three facts about the code shape the model:
- The sidebar keeps the history's own order and never sorts.
- Pressing the same feedback button twice clears the vote.
- The ordering of chats belongs to the hook, which is not modelled.

## Model

| member | source | states |
|---|---|---|
| `Basics.Filter` | ChatSidebar.tsx:43-45 | `Array.filter`: every kept element is from the input and satisfies the test, and every input element that satisfies the test is kept |
| `Basics.FilterCount` | ChatSidebar.tsx:43-45 | a filter keeps every occurrence of a value that passes the test and none of one that fails it |
| `Basics.FilterIsSubsequence` | ChatSidebar.tsx:43-45 | a filter result is a subsequence of its input: relative order is preserved |
| `Basics.FilterIdempotent` | ChatSidebar.tsx:43-45 | filtering twice with the same test equals filtering once |
| `Basics.DropIndexSplices` | ChatInput.tsx:80 | filtering out index `i` removes exactly the element at `i` when `0 <= i < length`, and otherwise returns the list unchanged |
| `Text.Trim` | ChatInput.tsx:31 | `trim()` is empty exactly for all-whitespace text; otherwise it starts and ends with a non-whitespace character |
| `Text.TrimStart` | ChatInput.tsx:31 | the result is a suffix of the input, everything dropped is whitespace, and the result does not start with whitespace |
| `Text.TrimEnd` | ChatInput.tsx:31 | the result is a prefix of the input, everything dropped is whitespace, and the result does not end with whitespace |
| `Text.Lower` | ChatSidebar.tsx:44 | `toLowerCase()` keeps the length and lower-cases each character (ASCII letters) |
| `Text.ContainsIffOccurs` | ChatSidebar.tsx:44 | `includes` holds exactly when the query occurs at some position of the text |
| `Text.JoinSplit` | FilePreview.tsx:29 | `split('.')` loses nothing: joining the pieces with '.' gives the name back |
| `Text.LastPieceIsTextAfterLastSeparator` | FilePreview.tsx:29 | `split('.').pop()` is the suffix after the last '.', holds no '.', or is the whole name when it has no '.' |
| `Text.LastPieceOfLower` | FilePreview.tsx:29 | lower-casing the name first or the last piece afterwards gives the same piece |
| `Text.NatToString` | FilePreview.tsx:49 | `${n}` is a non-empty string of digits without a leading zero |
| `Text.ParseNatToString` | FilePreview.tsx:49 | reading the decimal rendering back gives the number |
| `Text.Utf16Length` | LoginForm.tsx:39 | `length` counts UTF-16 code units: between the number of characters and twice that, and equal to it when no character is above U+FFFF |
| `ChatSidebar.Matches` | ChatSidebar.tsx:44 | the test holds exactly when the chat is not archived and the lower-cased query occurs at some position of the lower-cased title |
| `ChatSidebar.FilteredHistory` | ChatSidebar.tsx:43-45 | `filteredHistory`: every shown chat is from the history and passes the test, and every history chat that passes it is shown |
| `ChatSidebar.FilteredKeepsOrder` | ChatSidebar.tsx:43-45 | every shown chat comes from the history, in history order, and the list is no longer than the history |
| `ChatSidebar.FilteredHidesArchived` | ChatSidebar.tsx:44 | no archived chat is ever shown, for any query |
| `ChatSidebar.FilteredMembership` | ChatSidebar.tsx:44 | a history chat is shown exactly when it is not archived and its lower-cased title contains the lower-cased query |
| `ChatSidebar.EmptyQueryShowsActive` | ChatSidebar.tsx:44 | the empty query shows exactly the non-archived chats, in order |
| `ChatSidebar.QueryCaseIgnored` | ChatSidebar.tsx:44 | queries equal up to letter case show the same list |
| `ChatSidebar.FilterAgainUnchanged` | ChatSidebar.tsx:43-45 | filtering the shown list again with the same query changes nothing |
| `ChatSidebar.EmptyStateMessage` | ChatSidebar.tsx:113-115 | no placeholder while chats are shown; for an empty list, "No chats found" exactly when the query is non-empty and "No chat history yet" exactly when it is empty |
| `ChatSidebar.NoHistoryMessageIffAllArchived` | ChatSidebar.tsx:113-115 | with the empty query, "No chat history yet" appears exactly when every chat is archived |
| `ChatMessage.NextFeedback` | ChatMessage.tsx:24 | pressing the current vote clears it; any other press sets the pressed vote |
| `ChatMessage.PressTwiceFromNone` | ChatMessage.tsx:24-25 | pressing one button twice from no vote ends at no vote |
| `ChatMessage.LikeThenDislike` | ChatMessage.tsx:24-25 | like then dislike ends at dislike from any state |
| `ChatMessage.PressTwiceRestores` | ChatMessage.tsx:24 | a double press restores the state exactly when it was no vote or that button's vote |
| `ChatMessage.AuthorLabel` | ChatMessage.tsx:59 | the label is "You" exactly for role user and "MeTTa Assistant" for every other role |
| `ChatMessage.ShowsFeedbackButtons` | ChatMessage.tsx:76 | the feedback buttons are rendered exactly for assistant messages |
| `ChatMessage.FeedbackButtonsBesideAssistantLabel` | ChatMessage.tsx:76 | feedback buttons are shown exactly for messages labelled "MeTTa Assistant" |
| `ChatMessage.MessageView.constructor` | ChatMessage.tsx:19-21 | the initial feedback state is the message's stored feedback |
| `ChatMessage.MessageView.HandleFeedback` | ChatMessage.tsx:23-29 | the state moves by `NextFeedback`; `onFeedback(message.id, vote)` fires exactly when the new state is a vote, and clearing fires nothing |
| `ChatInput.CanSend` | ChatInput.tsx:31 | the send guard holds exactly when the text is not all whitespace or a file is attached, and the input is not disabled |
| `ChatInput.SendButtonDisabled` | ChatInput.tsx:161 | the send button is disabled exactly when the input is disabled, or the text is all whitespace and no file is attached |
| `ChatInput.SendButtonMatchesGuard` | ChatInput.tsx:161 | the send button is disabled exactly when the send guard fails |
| `ChatInput.OutgoingFor` | ChatInput.tsx:32 | the sent text is the trimmed input; the files argument is present exactly when files are attached, and is then the whole list |
| `ChatInput.WithTranscript` | ChatInput.tsx:51 | an empty field becomes the transcript; otherwise the result is the field, one space, and the transcript |
| `ChatInput.Accepted` | ChatInput.tsx:58-66 | every accepted file is from the selection and passed `validateFile`, and every selected file that passed is accepted |
| `ChatInput.AcceptedInSelectionOrder` | ChatInput.tsx:58-66 | accepted files are a subsequence of the selection and each one passed `validateFile` |
| `ChatInput.Rejections` | ChatInput.tsx:59-66 | one error toast per rejected file: error toasts plus accepted files number exactly the selected files |
| `ChatInput.CollectValidFiles` | ChatInput.tsx:58-66 | the `forEach` loop collects exactly the accepted files in order, and an error toast for each rejected file |
| `ChatInput.Composer.constructor` | ChatInput.tsx:25-26 | the composer starts with empty text and no files |
| `ChatInput.Composer.SetInput` | ChatInput.tsx:142 | typing replaces the text |
| `ChatInput.Composer.HandleSend` | ChatInput.tsx:30-41 | fires exactly when not disabled and the trimmed text or the file list is non-empty, sending `OutgoingFor` and clearing both; otherwise nothing is emitted and nothing changes |
| `ChatInput.Composer.HandleKeyDown` | ChatInput.tsx:43-48 | Enter without Shift prevents the newline and does the same guarded send; any other key sends nothing and changes nothing |
| `ChatInput.Composer.HandleVoiceTranscript` | ChatInput.tsx:50-52 | the text becomes `WithTranscript(old text, transcript)` |
| `ChatInput.Composer.HandleFileSelect` | ChatInput.tsx:54-77 | the accepted files are appended after the existing ones in selection order; toasts: the rejections, then "<n> file(s) added" only when n > 0 |
| `ChatInput.Composer.HandleRemoveFile` | ChatInput.tsx:79-81 | an in-range index removes that one file and keeps the others in order; any other index leaves the list unchanged |
| `RenameDialog.SubmitOutput` | RenameDialog.tsx:21-27 | confirms exactly when the title is not all whitespace, with the trimmed (non-empty) title, and asks to close exactly then |
| `RenameDialog.CancelOutput` | RenameDialog.tsx:52 | Cancel asks to close and confirms nothing |
| `RenameDialog.SaveDisabled` | RenameDialog.tsx:55 | Save is disabled exactly when the draft is empty or all whitespace |
| `RenameDialog.SaveDisabledMatchesSubmit` | RenameDialog.tsx:55 | Save is disabled exactly when a submit would confirm nothing |
| `RenameDialog.ConfirmedTitleIsTrimmed` | RenameDialog.tsx:24 | the confirmed title is a fixed point of `trim` |
| `RenameDialog.Dialog.constructor` | RenameDialog.tsx:15 | the edited title starts as `currentTitle` |
| `RenameDialog.Dialog.ReceiveCurrentTitle` | RenameDialog.tsx:17-19 | the edited title resets to `currentTitle` exactly when that prop changed; otherwise it keeps the edits |
| `RenameDialog.Dialog.Edit` | RenameDialog.tsx:45 | typing replaces the edited title |
| `RenameDialog.Dialog.HandleSubmit` | RenameDialog.tsx:21-27 | a submit sends `SubmitOutput(title)` and leaves the dialog state unchanged |
| `ChatInterface.IsActiveId` | ChatInterface.tsx:119 | a current chat id counts as present exactly when it is set and non-empty |
| `ChatInterface.FindIndex` | ChatInterface.tsx:92 | the position of the first chat with the id, or none when no chat has it |
| `ChatInterface.FindChat` | ChatInterface.tsx:92 | `find` gives nothing exactly when no chat has the id; otherwise the first history chat with that id |
| `ChatInterface.HeaderTitle` | ChatInterface.tsx:183-185 | "MeTTa AI Assistant" with no current chat; the found chat's non-empty title; "Chat" when it is not found or has an empty title; never blank |
| `ChatInterface.HandleExportChat` | ChatInterface.tsx:118-129 | with no current chat, `exportChat` is not called; an absent or empty text fails; otherwise the text returned for the current chat is downloaded |
| `ChatInterface.ExportToast` | ChatInterface.tsx:118-139 | "Chat exported successfully!" exactly after a download, "No active chat to export!" exactly without a current chat, "Failed to export chat!" exactly when the export failed |
| `ChatInterface.ExportErrorIffNothingToDownload` | ChatInterface.tsx:118-139 | the success toast appears exactly when there is a current chat and its export text is non-empty |
| `ChatInterface.HandleShareChat` | ChatInterface.tsx:85-89 | sharing a chat copies `shareChat(chatId)` for that chat |
| `ChatInterface.HandleShareCurrentChat` | ChatInterface.tsx:142-148 | with no current chat nothing is shared and `shareChat` is not called; otherwise it shares the current chat |
| `ChatInterface.ShareToast` | ChatInterface.tsx:85-89 | "Share link copied to clipboard!" exactly when a chat was shared; "No active chat to share!" exactly when none was |
| `ChatInterface.ShareSuccessIffActive` | ChatInterface.tsx:142-148 | sharing the current chat reports success exactly when there is a current chat, and then copies the store's link for it |
| `ChatInterface.DialogTitleProp` | ChatInterface.tsx:270 | the dialog's `currentTitle` is the captured chat's title, or "" when no chat is captured |
| `ChatInterface.Layout` | ChatInterface.tsx:224-254 | starter prompts exactly when there are no messages; loading placeholder exactly with messages while loading; input disabled exactly while loading |
| `ChatInterface.NoSendWhileLoading` | ChatInterface.tsx:254 | while loading, the composer's send guard fails for any text and files |
| `ChatInterface.Screen.constructor` | ChatInterface.tsx:36-37 | the dialog starts closed with nothing captured |
| `ChatInterface.Screen.HandleRenameChat` | ChatInterface.tsx:91-97 | a chat id present in the history captures that id and its title and opens the dialog; the dialog's draft resets only if the prop changed; an unknown id changes nothing |
| `ChatInterface.Screen.ConfirmRename` | ChatInterface.tsx:99-106 | `renameChat(captured id, new title)` and "Chat renamed!" exactly when a chat is captured; always closes the dialog and clears the capture |
| `ChatInterface.Screen.SubmitRename` | ChatInterface.tsx:267-272 | Save renames the captured chat to the trimmed draft when the draft is not blank, with "Chat renamed!" exactly when a chat is captured; it then closes, clears the capture and resets the draft to "" if the prop was non-empty; a blank draft changes nothing |
| `ChatInterface.Screen.CancelRename` | ChatInterface.tsx:269 | Cancel closes the dialog and keeps the captured chat |
| `ChatInterface.ReopenAfterCancel` | ChatInterface.tsx:267-272 | open, type a draft, cancel, and reopen the same chat: the dialog shows the draft, not the chat's title |
| `LoginForm.Form.constructor` | LoginForm.tsx:25-28 | empty fields and no errors |
| `LoginForm.Form.SetEmail` | LoginForm.tsx:72 | typing replaces the email |
| `LoginForm.Form.SetPassword` | LoginForm.tsx:100 | typing replaces the password |
| `LoginForm.Form.HandleSubmit` | LoginForm.tsx:30-50 | email error exactly when `validateEmail` fails; password error exactly when the length is below 6; nothing else; `onLogin(email, password)` exactly when there is no error, and the errors are then cleared |
| `SignupForm.FirstError` | SignupForm.tsx:47 | the stored password error is the first reported message, or `undefined` when none was reported |
| `SignupForm.Form.constructor` | SignupForm.tsx:25-34 | empty fields and no errors |
| `SignupForm.Form.SetFields` | SignupForm.tsx:25-27 | the three fields take the typed values |
| `SignupForm.Form.HandleSubmit` | SignupForm.tsx:36-61 | each of email, password and confirmation is in error exactly when its own check fails, independently, so several can be reported together; `onSignup(email, password)` exactly when none is |
| `ForgotPasswordForm.Form.constructor` | ForgotPasswordForm.tsx:20-21 | empty email and no error |
| `ForgotPasswordForm.Form.SetEmail` | ForgotPasswordForm.tsx:64 | typing replaces the email |
| `ForgotPasswordForm.Form.HandleSubmit` | ForgotPasswordForm.tsx:23-33 | the error is non-empty exactly when the email is invalid; a valid email clears it and submits the email once, untrimmed; an invalid one submits nothing |
| `FilePreview.Extension` | FilePreview.tsx:29 | the extension contains no '.' and is no longer than the name |
| `FilePreview.ExtensionIsTextAfterLastDot` | FilePreview.tsx:29 | the extension is the lower-cased text after the last '.', or the whole lower-cased name without a '.' |
| `FilePreview.ExtensionIgnoresCase` | FilePreview.tsx:29 | names equal up to letter case have the same extension |
| `FilePreview.IconForExtension` | FilePreview.tsx:31-45 | text icon exactly for pdf/doc/docx/txt, spreadsheet exactly for csv/xlsx/xls, JSON exactly for json, generic otherwise |
| `FilePreview.IsImage` | FilePreview.tsx:16 | a file is an image exactly when its MIME type has "image/" as a prefix |
| `FilePreview.FileIcon` | FilePreview.tsx:26-46 | no icon exactly for images (MIME type starting "image/"); otherwise the icon of the extension |
| `FilePreview.FileIconIgnoresCase` | FilePreview.tsx:29 | "A.PDF" and "a.pdf" (any names equal up to case) get the same icon |
| `FilePreview.FormatFileSize` | FilePreview.tsx:48-52 | exact bytes exactly below 1024; KB below 1048576, with an amount in [1, 1024); MB from there on; the amount is the exact quotient |
| `FilePreview.ExactSizeReadsBack` | FilePreview.tsx:49 | the bytes text is the decimal size followed by " B", and parsing it gives the size back |

## Left out

- The chat store of `useChatManagement` (ChatInterface.tsx:22, 42-56). Its operations and data are not modelled; the screen's calls into it are returned values or function parameters.
- `handleNewChat`, `handleSelectChat`, `handleFeedback`, `handleArchiveChat` and `handleDeleteChat` (ChatInterface.tsx:63-69, 81-83, 108-116). Each forwards to one store operation; archive and delete then raise a fixed toast ("Chat archived!", "Chat deleted!"). There is no logic of their own to state.
- `handleSendMessage` (ChatInterface.tsx:71-79). It awaits the store's `sendMessage` with the text only: attached files are logged and not forwarded. The loading lifecycle belongs to the store.
- `validateEmail`, `validatePassword` and `validateFile` are parameters, not definitions; the model says nothing about which inputs they accept.
- Text.Lower: lower-cases only A-Z. JavaScript's `toLowerCase` also maps non-ASCII letters, so the sidebar search and the extension classification are modelled as case-insensitive for ASCII letters only.
- Strings are sequences of Unicode scalar values. A lone UTF-16 surrogate, which JavaScript strings can hold, cannot be written.
- FilePreview.FormatFileSize: the KB/MB amount is the exact quotient. The one-decimal rounding of `toFixed(1)` is not modelled.
- `formatTime` (ChatMessage.tsx:113-129) and `formatDate` in the sidebar: locale-dependent date rendering.
- DOM and browser effects: textarea auto-resize and height reset (ChatInput.tsx:36-39, 87-94), clearing the file input (ChatInput.tsx:73-76), `handlePlusClick`, auto-scroll (ChatInterface.tsx:58-61), the Blob download and its `Date.now()` file name (ChatInterface.tsx:130-138), clipboard copy, image preview URLs (FilePreview.tsx:18-24). Toasts are modelled by their text only.
- Show/hide password toggles, the sidebar and settings open flags, and the links between the auth screens. These are presentation state with no rule to state.
- OAuthCallback.tsx, VoiceInput.tsx, MessageActions.tsx, ChatActionsMenu.tsx, OAuthButtons.tsx, SettingsDialog.tsx and StarterPrompts.tsx are not part of this model.
- React scheduling is not modelled. `setState` calls are applied immediately and in program order, and the rename dialog's reset effect runs when the screen passes it a new prop.
