/** The chat history sidebar: the search box narrows the history to the chats
    that are not archived and whose title contains the query, ignoring case,
    and an empty list shows one of two placeholder messages. */
module ChatSidebar {
  import opened Basics
  import opened Text

  /** One entry of the chat history as the sidebar receives it. */
  datatype ChatSummary = ChatSummary(id: string, title: string, timestamp: int, archived: bool)

  /** The filter's test for one chat: not archived, and the lower-cased query
      occurs somewhere in the lower-cased title. */
  predicate Matches(chat: ChatSummary, query: string)
    ensures Matches(chat, query) <==>
      !chat.archived && exists i :: OccursAt(Lower(chat.title), Lower(query), i)
  {
    ContainsIffOccurs(Lower(chat.title), Lower(query));
    !chat.archived && Contains(Lower(chat.title), Lower(query))
  }

  predicate IsActive(chat: ChatSummary) {
    !chat.archived
  }

  /** `filteredHistory`: `history.filter(...)` with the test above. */
  function FilteredHistory(history: seq<ChatSummary>, query: string): (shown: seq<ChatSummary>)
    ensures forall k :: 0 <= k < |shown| ==> shown[k] in history && Matches(shown[k], query)
    ensures forall k :: 0 <= k < |history| && Matches(history[k], query) ==> history[k] in shown
  {
    Filter(history, chat => Matches(chat, query))
  }

  /** The history without its archived chats. */
  function ActiveChats(history: seq<ChatSummary>): seq<ChatSummary> {
    Filter(history, IsActive)
  }

  /** Every shown chat comes from the history, in the history's order. */
  lemma FilteredKeepsOrder(history: seq<ChatSummary>, query: string)
    ensures IsSubsequence(FilteredHistory(history, query), history)
    ensures |FilteredHistory(history, query)| <= |history|
  {
    FilterIsSubsequence(history, chat => Matches(chat, query));
  }

  /** No archived chat is ever shown, whatever the query. */
  lemma FilteredHidesArchived(history: seq<ChatSummary>, query: string)
    ensures forall k :: 0 <= k < |FilteredHistory(history, query)| ==>
      !FilteredHistory(history, query)[k].archived
  {
  }

  /** A chat of the history is shown exactly when it is not archived and its
      lower-cased title has the lower-cased query at some position. */
  lemma FilteredMembership(history: seq<ChatSummary>, query: string, chat: ChatSummary)
    requires chat in history
    ensures chat in FilteredHistory(history, query) <==>
      !chat.archived && exists i :: OccursAt(Lower(chat.title), Lower(query), i)
  {
    ContainsIffOccurs(Lower(chat.title), Lower(query));
    var r := FilteredHistory(history, query);
    if chat in r {
      var k :| 0 <= k < |r| && r[k] == chat;
    } else {
      var k :| 0 <= k < |history| && history[k] == chat;
    }
  }

  /** An empty query shows exactly the chats that are not archived. */
  lemma EmptyQueryShowsActive(history: seq<ChatSummary>)
    ensures FilteredHistory(history, "") == ActiveChats(history)
  {
    forall k | 0 <= k < |history|
      ensures Matches(history[k], "") == IsActive(history[k])
    {
      ContainsEmpty(Lower(history[k].title));
    }
    FilterCongruent(history, chat => Matches(chat, ""), IsActive);
  }

  /** Queries that differ only in the case of their letters show the same list. */
  lemma QueryCaseIgnored(history: seq<ChatSummary>, q1: string, q2: string)
    requires Lower(q1) == Lower(q2)
    ensures FilteredHistory(history, q1) == FilteredHistory(history, q2)
  {
    FilterCongruent(history, chat => Matches(chat, q1), chat => Matches(chat, q2));
  }

  /** Searching the shown list again with the same query changes nothing. */
  lemma FilterAgainUnchanged(history: seq<ChatSummary>, query: string)
    ensures FilteredHistory(FilteredHistory(history, query), query) == FilteredHistory(history, query)
  {
    FilterIdempotent(history, chat => Matches(chat, query));
  }

  /** The placeholder shown instead of the list: none while some chat is shown;
      otherwise "No chats found" for a non-empty query (any text, even spaces)
      and "No chat history yet" for the empty query. */
  function EmptyStateMessage(shown: seq<ChatSummary>, query: string): (message: Option<string>)
    ensures message.None? <==> shown != []
    ensures message == Some("No chats found") <==> shown == [] && query != ""
    ensures message == Some("No chat history yet") <==> shown == [] && query == ""
  {
    if shown != [] then None
    else if query != "" then Some("No chats found")
    else Some("No chat history yet")
  }

  /** With the empty query, "No chat history yet" appears exactly when every chat
      of the history is archived. */
  lemma NoHistoryMessageIffAllArchived(history: seq<ChatSummary>)
    ensures EmptyStateMessage(FilteredHistory(history, ""), "") == Some("No chat history yet")
      <==> forall k :: 0 <= k < |history| ==> history[k].archived
  {
    EmptyQueryShowsActive(history);
    var active := ActiveChats(history);
    if active != [] {
      assert active[0] in history && !active[0].archived;
    }
  }
}
