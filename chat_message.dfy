/** One message of the thread: who wrote it, whether feedback buttons are shown,
    and the like/dislike toggle the message keeps in its own state and reports
    upwards. */
module ChatMessage {
  import opened Basics

  datatype Role = User | Assistant
  datatype Vote = Like | Dislike

  /** A message as the component receives it; `feedback` is its stored vote. */
  datatype Message = Message(id: string, role: Role, content: string, feedback: Option<Vote>)

  /** The `onFeedback(message.id, vote)` call. */
  datatype FeedbackNotice = FeedbackNotice(messageId: string, vote: Vote)

  /** The feedback after pressing a button: pressing the current vote clears it,
      pressing any other button (or any button with no vote) selects it. */
  function NextFeedback(current: Option<Vote>, pressed: Vote): (next: Option<Vote>)
    ensures next.None? <==> current == Some(pressed)
    ensures next.Some? ==> next.value == pressed
  {
    if current == Some(pressed) then None else Some(pressed)
  }

  /** Pressing the same button twice from no vote returns to no vote. */
  lemma PressTwiceFromNone(v: Vote)
    ensures NextFeedback(NextFeedback(None, v), v) == None
  {
  }

  /** Like then dislike ends at dislike, from any starting state: the last
      different press wins. */
  lemma LikeThenDislike(current: Option<Vote>)
    ensures NextFeedback(NextFeedback(current, Like), Dislike) == Some(Dislike)
  {
  }

  /** Pressing a button twice restores the starting state exactly when that state
      was no vote or that button's own vote. */
  lemma PressTwiceRestores(current: Option<Vote>, v: Vote)
    ensures NextFeedback(NextFeedback(current, v), v) == current <==> current in {None, Some(v)}
  {
  }

  /** The author label: "You" for the user's messages, "MeTTa Assistant" otherwise. */
  function AuthorLabel(role: Role): (author: string)
    ensures author == "You" <==> role == User
    ensures author == "MeTTa Assistant" <==> role != User
  {
    if role == User then "You" else "MeTTa Assistant"
  }

  /** The feedback buttons are rendered only for messages not written by the user. */
  predicate ShowsFeedbackButtons(role: Role)
    ensures ShowsFeedbackButtons(role) <==> role == Assistant
  {
    role != User
  }

  /** Feedback buttons appear exactly beside the assistant label. */
  lemma FeedbackButtonsBesideAssistantLabel(role: Role)
    ensures ShowsFeedbackButtons(role) <==> AuthorLabel(role) == "MeTTa Assistant"
  {
  }

  /** The rendered message with its `currentFeedback` state. The state is seeded
      from the message once, when the component is created. */
  class MessageView {
    const message: Message
    var currentFeedback: Option<Vote>

    constructor (message: Message)
      ensures this.message == message
      ensures currentFeedback == message.feedback
    {
      this.message := message;
      currentFeedback := message.feedback;
    }

    /** `handleFeedback`: moves to the next feedback state and reports the new
        vote upwards when there is one; clearing a vote reports nothing. */
    method HandleFeedback(pressed: Vote) returns (notice: Option<FeedbackNotice>)
      modifies this
      ensures currentFeedback == NextFeedback(old(currentFeedback), pressed)
      ensures notice.Some? <==> currentFeedback.Some?
      ensures notice.Some? ==> notice.value == FeedbackNotice(message.id, pressed)
    {
      var newFeedback := NextFeedback(currentFeedback, pressed);
      currentFeedback := newFeedback;
      if newFeedback.Some? {
        notice := Some(FeedbackNotice(message.id, newFeedback.value));
      } else {
        notice := None;
      }
    }
  }
}
