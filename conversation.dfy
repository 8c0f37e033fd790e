/** The conversation view (src/pages/ChatPage.tsx): the ordered message log
    of the session in the route, the query being typed, and the send path
    with its optimistic append. */
module Conversation {
  import opened Common
  import opened Types

  /** A `POST /chat/{id}` request with body `{query}` handed to the backend. */
  datatype ChatRequest = ChatRequest(id: string, query: string)

  /** Only bot replies can still be animating: the client never marks a user
      message, or anything it appended itself for the user, as new. */
  ghost predicate NewOnlyForBot(log: seq<Message>) {
    forall k :: 0 <= k < |log| ==> log[k].isNew ==> log[k].from == Bot
  }

  /** The guard of `handleSend`: a session is selected and the query is not
      blank once trimmed. */
  predicate SendAccepted(id: string, query: string) {
    id != "" && Trim(query) != ""
  }

  /** A send is accepted exactly when there is a session and the query holds a
      character that is not whitespace. */
  lemma SendAcceptedIffNotBlank(id: string, query: string)
    ensures SendAccepted(id, query) <==> id != "" && !IsBlank(query)
  {
    TrimEmptyIffBlank(query);
  }

  /** The send button's `disabled={isAsking || !query.trim()}`, negated. */
  predicate SendEnabled(isAsking: bool, query: string) {
    !isAsking && Trim(query) != ""
  }

  /** The button is enabled exactly when no reply is pending and the query is
      not blank; on a session page an enabled button always passes the guard of
      `handleSend`. */
  lemma SendEnabledSpec(isAsking: bool, id: string, query: string)
    ensures SendEnabled(isAsking, query) <==> !isAsking && !IsBlank(query)
    ensures SendEnabled(isAsking, query) && id != "" ==> SendAccepted(id, query)
  {
    TrimEmptyIffBlank(query);
  }

  /** A message is shown through the typing animation, rather than as plain
      text, when it is a bot reply still marked new. */
  predicate ShowsTyping(m: Message) {
    m.from == Bot && m.isNew
  }

  /** In a log whose new entries are all bot replies (every log the page
      keeps: `Send`, `OnHistory` of such history and the completion map
      preserve it) an entry is animated exactly while it is marked new, and
      a user message is always plain text. */
  lemma TypingIffNew(log: seq<Message>)
    requires NewOnlyForBot(log)
    ensures forall k :: 0 <= k < |log| ==> (ShowsTyping(log[k]) <==> log[k].isNew)
    ensures forall k :: 0 <= k < |log| && log[k].from == User ==> !ShowsTyping(log[k])
  {
  }

  /** The session label of the header: the last 4 characters of the id's last
      ':'-segment, "Unknown" when that segment is empty, and "No Session
      Selected" without a session. */
  function HeaderLabel(id: string): (caption: string)
    ensures id == "" ==> caption == "No Session Selected"
    ensures id != "" ==>
              var last := Split(id, ':')[|Split(id, ':')| - 1];
              (last == "" ==> caption == "Unknown")
              && (last != "" ==>
                    |caption| == (if |last| < 4 then |last| else 4)
                    && |caption| <= |id| && caption == id[|id| - |caption|..]
                    && ':' !in caption)
  {
    if id == "" then "No Session Selected"
    else
      var parts := Split(id, ':');
      var last := parts[|parts| - 1];
      var tail := Last(last, 4);
      LastPartIsSuffix(parts, ':');
      SuffixOfSuffix(id, last, tail);
      if tail == "" then "Unknown" else tail
  }

  /** A suffix of a suffix is a suffix. */
  lemma SuffixOfSuffix(s: string, mid: string, tail: string)
    requires |mid| <= |s| && mid == s[|s| - |mid|..]
    requires |tail| <= |mid| && tail == mid[|mid| - |tail|..]
    ensures tail == s[|s| - |tail|..]
  {
    assert s[|s| - |tail|..] == s[|s| - |mid|..][|mid| - |tail|..];
  }

  class ChatPage {
    /** The session id of the route (`useParams().id`), "" when there is none. */
    var id: string
    var messages: seq<Message>
    var query: string

    constructor (id: string)
      ensures this.id == id && messages == [] && query == ""
    {
      this.id := id;
      messages := [];
      query := "";
    }

    /** A change of the `:id` route parameter. The route keeps the same page
        mounted, so its state survives: the log and the typed query stay until
        the history of the new session arrives (`OnHistory`). */
    method Navigate(newId: string)
      modifies this`id
      ensures id == newId && messages == old(messages) && query == old(query)
    {
      id := newId;
    }

    /** A route change that gives every session a page of its own (the page
        keyed by the session id): the state starts over as on first mount. */
    method Remount(newId: string)
      modifies this`id, this`messages, this`query
      ensures id == newId && messages == [] && query == ""
    {
      id, messages, query := newId, [], "";
    }

    /** The textarea's `onChange`. */
    method SetQuery(text: string)
      modifies this`query
      ensures query == text
    {
      query := text;
    }

    /** The effect on `data`: history that has arrived replaces the whole log;
        while it has not (`data` is undefined) the log stays as it is. */
    method OnHistory(data: Option<seq<Message>>)
      modifies this`messages
      ensures messages == if data.Some? then data.value else old(messages)
    {
      if data.Some? {
        messages := data.value;
      }
    }

    /** `handleSend`, with `reply` the backend's outcome for the request it
        issues: `Some(text)` on success, `None` on error. */
    method Send(reply: Option<string>) returns (request: Option<ChatRequest>)
      modifies this`messages, this`query
      ensures !SendAccepted(id, old(query)) ==>
                request == None && messages == old(messages) && query == old(query)
      ensures SendAccepted(id, old(query)) ==>
                request == Some(ChatRequest(id, old(query))) && query == ""
                && messages == old(messages) + SendAppends(old(query), reply)
      ensures NewOnlyForBot(old(messages)) ==> NewOnlyForBot(messages)
    {
      request := None;
      if id == "" || Trim(query) == "" {
        return;
      }
      ghost var before := messages;
      messages := messages + [Message(User, query, false)];
      request := Some(ChatRequest(id, query));
      if reply.Some? {
        messages := messages + [Message(Bot, reply.value, true)];
      }
      assert messages == before + SendAppends(query, reply);
      NewOnlyForBotAppend(before, SendAppends(query, reply));
      query := "";
    }
  }

  /** What an accepted send adds to the log: the user's message, untrimmed and
      not new, then the bot's reply marked new when the backend answered. */
  function SendAppends(query: string, reply: Option<string>): (added: seq<Message>)
    ensures |added| == if reply.Some? then 2 else 1
    ensures added[0] == Message(User, query, false) && !ShowsTyping(added[0])
    ensures reply.Some? ==> added[1] == Message(Bot, reply.value, true) && ShowsTyping(added[1])
    ensures NewOnlyForBot(added)
  {
    [Message(User, query, false)] + (if reply.Some? then [Message(Bot, reply.value, true)] else [])
  }

  lemma NewOnlyForBotAppend(a: seq<Message>, b: seq<Message>)
    requires NewOnlyForBot(b)
    ensures NewOnlyForBot(a) ==> NewOnlyForBot(a + b)
  {
    if NewOnlyForBot(a) {
      forall k | 0 <= k < |a + b| ensures (a + b)[k].isNew ==> (a + b)[k].from == Bot {
        if k >= |a| {
          assert (a + b)[k] == b[k - |a|];
        }
      }
    }
  }
}
