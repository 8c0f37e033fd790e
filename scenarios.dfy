/** Properties that tie the components together, and worked examples of the
    client's behaviour on concrete inputs. */
module Scenarios {
  import opened Common
  import opened Types
  import opened Sessions
  import opened Conversation
  import opened Typing
  import opened Store

  /** The chat header and the sidebar title show the same four characters for
      a session minted by the sidebar. */
  lemma HeaderMatchesTitle(username: string, now: nat)
    requires ':' !in username && now >= 1000
    ensures TitleFor(NewId(username, now)) == "Session " + HeaderLabel(NewId(username, now))
  {
    NewIdParts(username, now);
    NewTitleShowsClockDigits(username, now);
    NatToStringLength(now, 3);
  }

  lemma ThousandInDecimal()
    ensures NatToString(1000) == "1000"
  {
    assert NatToString(1) == "1";
    assert NatToString(10) == "10";
    assert NatToString(100) == "100";
  }

  /** Creating a session for "alice" at time 1000 gives the id "alice:1000",
      and the title "Session 1000". */
  lemma CreateAliceAt1000()
    ensures NewId("alice", 1000) == "alice:1000"
    ensures TitleFor(NewId("alice", 1000)) == "Session 1000"
  {
    assert NewId("alice", 1000) == "alice:1000" by {
      ThousandInDecimal();
    }
    assert TitleFor(NewId("alice", 1000)) == "Session 1000" by {
      ThousandInDecimal();
      NewTitleShowsClockDigits("alice", 1000);
    }
  }

  /** Sessions "a:100" and "a:200" are listed "a:200" first. */
  lemma TwoSessionsMostRecentFirst()
    ensures SortByRecency([Session("a:100", "Session :100"), Session("a:200", "Session :200")])
            == [Session("a:200", "Session :200"), Session("a:100", "Session :100")]
  {
    assert NatToString(100) == "100" && NatToString(200) == "200";
    assert NewId("a", 100) == "a:100" && NewId("a", 200) == "a:200";
    assert TitleFor("a:100") == "Session :100" && TitleFor("a:200") == "Session :200";
    LaterSessionListedFirst("a", 100, 200);
  }

  /** The reply "hello" appears as "h", "he", "hel", "hell", "hello"; the
      interval is cleared, and the reply settled, only with the fifth tick. */
  lemma HelloReveal()
    ensures Run("hello", 1) == Reveal(1, "h", true)
    ensures Run("hello", 2) == Reveal(2, "he", true)
    ensures Run("hello", 3) == Reveal(3, "hel", true)
    ensures Run("hello", 4) == Reveal(4, "hell", true)
    ensures Run("hello", 5) == Reveal(5, "hello", false)
  {
    var text := "hello";
    RunSpec(text, 1);
    RunSpec(text, 2);
    RunSpec(text, 3);
    RunSpec(text, 4);
    RunSpec(text, 5);
  }

  /** The reveal of "hello" as the code is written, with the updater applied at
      the next render: "e", "el", "ell", "ello", and "ello" when the interval is
      cleared, so the "h" never appears until the reply is settled and shown
      as plain text. */
  lemma HelloRevealQueued()
    ensures RunQueued("hello", 1) == Reveal(1, "e", true)
    ensures RunQueued("hello", 2) == Reveal(2, "el", true)
    ensures RunQueued("hello", 3) == Reveal(3, "ell", true)
    ensures RunQueued("hello", 4) == Reveal(4, "ello", true)
    ensures RunQueued("hello", 5) == Reveal(5, "ello", false)
  {
    var text := "hello";
    RunQueuedSpec(text, 1);
    RunQueuedSpec(text, 2);
    RunQueuedSpec(text, 3);
    RunQueuedSpec(text, 4);
    RunQueuedSpec(text, 5);
  }

  /** For "a:12" the header shows both digits of the short last segment. */
  lemma ShortSegmentHeader()
    ensures HeaderLabel("a:12") == "12"
  {
    assert Split("a:12", ':') == ["a", "12"] by {
      SplitWithoutSeparator("12", ':');
      SplitAfterSeparator("a", "12", ':');
      assert "a:12" == "a" + [':'] + "12";
    }
  }

  /** The page as written: history of session `first` arrives, the route
      changes to `second`, the history request for `second` fails, and a
      message is sent. The log on `second`'s page still holds `first`'s
      history, with the new message appended to it. */
  method StaleLogAfterSwitch(first: string, second: string, history: seq<Message>, query: string)
      returns (log: seq<Message>)
    requires SendAccepted(second, query)
    ensures log == history + [Message(User, query, false)]
  {
    var page := new ChatPage(first);
    page.OnHistory(Some(history));
    page.Navigate(second);
    page.OnHistory(None);
    assert page.messages == history && page.id == second;
    page.SetQuery(query);
    var request := page.Send(None);
    assert page.messages == history + SendAppends(query, None);
    log := page.messages;
  }

  /** The same steps with a page of its own for every session: the log holds
      only what was sent on `second`. */
  method FreshLogAfterSwitch(first: string, second: string, history: seq<Message>, query: string)
      returns (log: seq<Message>)
    requires SendAccepted(second, query)
    ensures log == [Message(User, query, false)]
  {
    var page := new ChatPage(first);
    page.OnHistory(Some(history));
    page.Remount(second);
    page.OnHistory(None);
    assert page.messages == [] && page.id == second;
    page.SetQuery(query);
    var request := page.Send(None);
    assert page.messages == [] + SendAppends(query, None);
    log := page.messages;
  }

  /** The sidebar follows the route: a session created from "/chat", opened,
      and then deleted is the active one, so the delete navigates back to
      "/chat". */
  method DeleteActiveAfterCreate() returns (route: Option<string>)
    ensures route == Some("/chat")
  {
    var storage := new LocalStorage(map[UsernameKey := Text("u")]);
    var sidebar := new ChatHistory(storage, "", true);
    var created, newRoute := sidebar.NewSession(5000);
    sidebar.Navigate(created.id);
    var request;
    request, route := sidebar.Delete(created.id, true, true);
  }

  /** A send answered by the backend, followed by the typing animation of the
      reply it rendered: the log ends with the user's message and the settled
      reply. */
  method SendThenReveal(id: string, query: string, reply: string) returns (log: seq<Message>)
    requires SendAccepted(id, query)
    ensures log == [Message(User, query, false), Message(Bot, reply, false)]
  {
    var page := new ChatPage(id);
    page.SetQuery(query);
    var request := page.Send(Some(reply));
    assert page.messages == [Message(User, query, false), Message(Bot, reply, true)];
    assert ShowsTyping(page.messages[1]) && !ShowsTyping(page.messages[0]);
    var typing := new TypingText(page, page.messages[1], 1);
    var ticks := typing.Animate();
    log := page.messages;
  }
}
