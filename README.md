# A Dafny model of the news-chatbot chat client

The client is a single-page React app. A user enters a name once. They then
create, resume and delete chat sessions in a sidebar and exchange messages
with a backend chat endpoint. Bot replies are revealed one character at a
time. This project models the four pieces of that client that hold state
logic, and proves what each one promises:

- the **session registry** of the sidebar (`src/components/ChatHistory.tsx`):
  a list of `{id, title}` entries mirrored into the key-value store under
  `"sessions"`, with create, delete-one, clear-all, a most-recent-first sort
  and a relative-age caption;
- the **conversation log** of the chat page (`src/pages/ChatPage.tsx`):
  history replacement, the send guard, the optimistic append of the user's
  message and the append of the bot's reply, the header caption, the
  typing/plain render choice and the send-button rule;
- the **typing reveal** (`src/components/TypingText.tsx`): a tick-driven
  state machine `(i, displayed, running)` that settles the reply's `isNew`
  flag in the log when it stops;
- the **first-visit registration** (`src/pages/WelcomePage.tsx`).

Each component whose fields the source updates in place is a class:
`Sessions.ChatHistory`, `Conversation.ChatPage`, `Typing.TypingText`,
`Welcome.WelcomePage` and the shared `Store.LocalStorage`. Their methods state
the whole new state. The pure parts are functions with lemmas beside them:
titles and ids, the sort, the filter, the time caption, the header caption,
the reveal steps and the completion map.

These non-deterministic inputs become parameters:
- the clock `Date.now()` (`now`);
- `crypto.randomUUID()` (`uuid`);
- the answers to the `confirm()` dialogs (`confirmed`);
- the backend's outcome for every request (`succeeded`, or `reply: Option<string>`);
- the 25 ms timer, modelled as discrete calls of `TypingText.Tick`.

The backend requests are returned as values (`ResetRequest`, `ChatRequest`)
so that "no request is issued" can be stated. Navigation is returned as the
route string.

Files: `common.dfy` holds the JavaScript string and number built-ins (`trim`,
`split`, `slice(-n)`, `toString`, `parseInt`). `types.dfy` holds the records.
`store.dfy` holds the key-value store. `sessions.dfy`, `conversation.dfy`,
`typing.dfy` and `welcome.dfy` hold the components. `scenarios.dfy` holds
cross-component properties and worked examples.

## Behaviour of the client worth noting

- Deleting one session removes *every* entry with that id (`filter`).
- The sidebar sorts its in-memory list in place when it renders (line 167 of
  `ChatHistory.tsx`). It does not re-sort the stored list. After a render the
  two lists hold the same entries, but the stored one may be in creation order.
- The sort is non-increasing and stable: sessions with equal timestamps keep
  their earlier order.
- A new session's title is `"Session "` followed by the last four characters of
  the id. For `alice` at time 1000 that is `"Session 1000"`.

## Model

| member | source | states |
|---|---|---|
| `Common.TrimEmptyIffBlank` | src/pages/ChatPage.tsx:41 | `s.trim()` is empty exactly when every character of `s` is ECMAScript whitespace. |
| `Common.Split` | src/components/ChatHistory.tsx:98 | `split(":")` always gives at least one part, no part holds the separator, and joining the parts with it gives the string back. |
| `Common.SplitJoin` | src/components/ChatHistory.tsx:98 | Splitting a join of separator-free parts gives back exactly those parts (the other half of the round trip). |
| `Common.ParseIntOfNatToString` | src/components/ChatHistory.tsx:31 | `parseInt` of the decimal text of a clock reading gives that reading back. |
| `Common.NatToString` | src/components/ChatHistory.tsx:31 | The decimal text of a non-negative integer is a non-empty run of digits with no leading zero. |
| `Sessions.NewIdParts` | src/components/ChatHistory.tsx:31 | A new id `username:now` splits into exactly the username and the clock digits when the username has no ':'. |
| `Sessions.NewIdTimestamp` | src/components/ChatHistory.tsx:31 | The second segment of a new id is the decimal clock reading, and its sort key is that reading. |
| `Sessions.NewTitleShowsClockDigits` | src/components/ChatHistory.tsx:34 | From time 1000 on, the title is "Session " followed by the last four digits of the creation time, whatever the username. |
| `Sessions.SortDescending` | src/components/ChatHistory.tsx:167-172 | The sorted list is a permutation of its input and is non-increasing by key. |
| `Sessions.SortKeepsTies` | src/components/ChatHistory.tsx:167-172 | The sort is stable: entries with the same key keep their relative order. |
| `Sessions.SortByRecencySpec` | src/components/ChatHistory.tsx:167-172 | The displayed list is a permutation of the sessions, ordered non-increasing by `parseInt(id.split(":")[1] \|\| "0")`, with ties in their earlier order. |
| `Sessions.SortPair` | src/components/ChatHistory.tsx:167-172 | Two entries with distinct keys are listed larger key first. |
| `Sessions.LaterSessionListedFirst` | src/components/ChatHistory.tsx:31-35 | Of two sessions created by one user, the later one is listed first. |
| `Sessions.RemoveId` | src/components/ChatHistory.tsx:82 | No entry left by the filter carries the deleted id, and the list does not grow. |
| `Sessions.RemoveIdCounts` | src/components/ChatHistory.tsx:82 | Every entry with another id survives as often as it occurred; entries with the deleted id occur zero times. |
| `Sessions.RemoveIdConcat` | src/components/ChatHistory.tsx:82 | The filter keeps the relative order of the remaining entries: it works piecewise over a concatenation. |
| `Sessions.RemoveAbsentId` | src/components/ChatHistory.tsx:82 | Deleting an id that no entry carries leaves the list unchanged. |
| `Sessions.FloorHoursThenDays` | src/components/ChatHistory.tsx:103-104 | Flooring to hours and then to days equals flooring to days, for negative ages too. |
| `Sessions.AgeCaptionSpec` | src/components/ChatHistory.tsx:102-112 | For an age in milliseconds: "Nd ago" (whole days) from one day on, "Nh ago" (whole hours) from one hour up to a day, else "Just now", negative ages included. |
| `Sessions.SessionTimeByAge` | src/components/ChatHistory.tsx:97-112 | The caption is "" without a non-empty second segment, "Just now" when that segment does not start with a digit, and otherwise the age caption above for the clock minus the parsed timestamp. |
| `Sessions.ChatHistory.constructor` | src/components/ChatHistory.tsx:23-27 | On mount the in-memory list is the stored list, or [] when none is stored. |
| `Sessions.ChatHistory.NewSession` | src/components/ChatHistory.tsx:30-41 | The new entry has id `username:now` and title `Session <last 4 of id>`. Exactly one entry is appended at the end. The store's "sessions" key, and nothing else, is set to the new list. The route is `/chat/<id>` and the sidebar closes. |
| `Sessions.ChatHistory.ClearAll` | src/components/ChatHistory.tsx:43-69 | With no stored username or a cancelled dialog, no request is sent and nothing changes. Otherwise `DELETE {username, all: true}` is sent. On success the list and the stored list are both empty and the route is `/chat`. On error nothing changes. |
| `Sessions.ChatHistory.Delete` | src/components/ChatHistory.tsx:71-95 | With an empty id or a cancelled dialog, no request is sent and nothing changes. On success the list and the store both hold the filtered list, and the route is `/chat` only if the deleted id was the active one. On error nothing changes. |
| `Sessions.ChatHistory.Navigate` | src/components/ChatHistory.tsx:21 | A route change updates the active id that the sidebar reads, and leaves its list, its visibility and the store as they were. |
| `Sessions.ChatHistory.Render` | src/components/ChatHistory.tsx:167-172 | Rendering replaces the in-memory list by its recency sort, leaves the store alone, and keeps both holding the same entries. |
| `Conversation.SendAcceptedIffNotBlank` | src/pages/ChatPage.tsx:41 | A send passes the guard exactly when a session id is present and the query has a non-whitespace character. |
| `Conversation.SendEnabledSpec` | src/pages/ChatPage.tsx:226 | The send button is enabled exactly when no request is in flight and the query is not blank. An enabled button on a session page always passes the send guard. |
| `Conversation.HeaderLabel` | src/pages/ChatPage.tsx:98-108 | Without a session the caption is "No Session Selected". With an empty last ':'-segment it is "Unknown". Otherwise it is the suffix of the id as long as that segment when the segment has fewer than 4 characters, and 4 long otherwise; it holds no ':'. |
| `Conversation.TypingIffNew` | src/pages/ChatPage.tsx:143-150 | In every log whose new entries are bot replies (the logs the page keeps), an entry is rendered through the typing animation exactly while it is marked new, and a user message is always plain text. |
| `Conversation.ChatPage.constructor` | src/pages/ChatPage.tsx:17-20 | On first mount the page holds the route's id, an empty log and an empty query. |
| `Conversation.ChatPage.Navigate` | src/pages/ChatPage.tsx:17-21 | A change of the route's `:id` keeps the page mounted: the id changes, and the log and the query stay as they were. |
| `Conversation.ChatPage.Remount` | src/pages/ChatPage.tsx:17-20 | The corrected route change: a page of its own per session, starting from an empty log and query. |
| `Conversation.SendAppends` | src/pages/ChatPage.tsx:43-57 | An accepted send adds the user message (untrimmed, not new, shown as plain text), then, on success only, the bot reply marked new (shown with the typing animation). |
| `Conversation.NewOnlyForBotAppend` | src/pages/ChatPage.tsx:43-57 | Appending entries whose new ones are all bot replies keeps the log's "only bot replies are new" invariant. |
| `Conversation.ChatPage.OnHistory` | src/pages/ChatPage.tsx:34-38 | Arrived history replaces the whole log. Without data the log is unchanged. |
| `Conversation.ChatPage.Send` | src/pages/ChatPage.tsx:40-65 | A rejected send (no id, or a blank query) issues no request and leaves the log and query unchanged. An accepted one issues `POST {id, query}`, appends exactly the user message and, on success, the bot reply, sets the query to "", and never removes the user message. |
| `Conversation.ChatPage.SetQuery` | src/pages/ChatPage.tsx:196 | Typing replaces the query. |
| `Typing.RunSpec` | src/components/TypingText.tsx:11-20 | The intended reveal, with each updater applied when it is queued: before its last tick the reveal has counter k and shows exactly `text[..k]`, and its interval is still running. From the last tick on it shows the whole text and has stopped. |
| `Typing.RunQueuedSpec` | src/components/TypingText.tsx:11-20 | The reveal as written, with each updater applied at the next render (after `i++`): before its last tick it shows characters 1 to k, skipping the first; from the last tick on it shows all but the first character and has stopped, on the same tick as the intended reveal. |
| `Typing.QueuedRevealDropsFirstCharacter` | src/components/TypingText.tsx:16-20 | With the updater applied at the next render, character j on screen is character j + 1 of the reply at every tick, and a non-empty reply ends its reveal with one character missing. |
| `Typing.StopsOnLastTick` | src/components/TypingText.tsx:16-20 | The interval is cleared on tick `max(\|text\|, 1)` and on no other tick, and in the intended reveal the full text is shown by then. |
| `Typing.MarkSettled` | src/components/TypingText.tsx:22-24 | The completion map keeps the log's length and every other entry. On the matching entry only `isNew` becomes false; `from` and `text` stay. With no match the log is unchanged. |
| `Typing.SettlingEndsTyping` | src/pages/ChatPage.tsx:143-150 | After completion the reply is shown as plain text, and that text is the whole reply. No other entry changes how it is shown. The "only bot replies are new" invariant is kept. |
| `Typing.TypingText.constructor` | src/components/TypingText.tsx:13-16 | Mounting starts the reveal from `i = 0`, `displayed = ""` with the interval scheduled. |
| `Typing.TypingText.Tick` | src/components/TypingText.tsx:16-25 | A tick does one reveal step. The log changes only on the stopping tick, and then by the completion map. After the interval is cleared a tick changes nothing. |
| `Typing.TypingText.Cleanup` | src/components/TypingText.tsx:28 | Cleanup clears the interval, so later ticks change neither the text nor the log. |
| `Typing.TypingText.Restart` | src/components/TypingText.tsx:13-29 | A new message prop cleans up the old reveal and starts a fresh one for the new message. |
| `Typing.TypingText.Animate` | src/components/TypingText.tsx:15-25 | Left running, the intended reveal ticks `max(\|text\|, 1)` times, ends showing the whole text, and settles the reply in the log once. |
| `Welcome.Register` | src/pages/WelcomePage.tsx:14-15 | A registration stores the typed name untrimmed and the fresh username, and keeps every other key. |
| `Welcome.RegistersAtMostOnce` | src/pages/WelcomePage.tsx:13-15 | After a registration the stored name is not empty, so no later submit registers again, whatever name is typed. |
| `Welcome.WelcomePage.SetName` | src/pages/WelcomePage.tsx:36 | Typing replaces the name field. |
| `Welcome.RegistersIffNotBlank` | src/pages/WelcomePage.tsx:13 | Registration happens exactly when no name and no username are stored (an empty text counts as none) and the typed name is not blank. |
| `Welcome.WelcomePage.Submit` | src/pages/WelcomePage.tsx:12-19 | When the guard holds, the store gets the two writes and the greeting shows the typed name. Otherwise the store and the greeting are unchanged. The route is `/chat` on every call. |
| `Welcome.WelcomePage.constructor` | src/pages/WelcomePage.tsx:7-10 | The greeting starts from the stored name, and the field starts empty. |
| `Scenarios.HeaderMatchesTitle` | src/pages/ChatPage.tsx:103 | For a session minted by the sidebar, the chat header shows the same four characters as the sidebar title. |
| `Scenarios.CreateAliceAt1000` | src/components/ChatHistory.tsx:31-34 | Creating a session for "alice" at time 1000 gives id "alice:1000" and title "Session 1000". |
| `Scenarios.TwoSessionsMostRecentFirst` | src/components/ChatHistory.tsx:167-172 | Sessions "a:100" and "a:200" are listed "a:200" first. |
| `Scenarios.HelloReveal` | src/components/TypingText.tsx:16-20 | In the intended reveal the reply "hello" shows "h", "he", "hel", "hell", "hello", and stops only after the fifth tick. |
| `Scenarios.HelloRevealQueued` | src/components/TypingText.tsx:16-20 | As written, with the updater applied at the next render, "hello" shows "e", "el", "ell", "ello", "ello", stopping after the fifth tick. |
| `Scenarios.ShortSegmentHeader` | src/pages/ChatPage.tsx:103 | For the id "a:12" the header shows "12". |
| `Scenarios.StaleLogAfterSwitch` | src/pages/ChatPage.tsx:17-65 | As written: after a switch to another session whose history request fails, the log still holds the previous session's history and a send appends to it. |
| `Scenarios.FreshLogAfterSwitch` | src/pages/ChatPage.tsx:17-65 | With a page per session, the same steps leave only the message sent on the new session. |
| `Scenarios.DeleteActiveAfterCreate` | src/components/ChatHistory.tsx:30-41 | A session created from "/chat", opened, and then deleted is the active one, so the delete goes back to "/chat" (line 85). |
| `Scenarios.SendThenReveal` | src/pages/ChatPage.tsx:40-65 | A successful send followed by the full reveal of its reply leaves the user message and the settled reply in the log. |

## Left out

- HTTP and the react-query hooks (`src/lib/axiosInstance.tsx`, `src/api/chats.api.ts`, `src/hooks/chats.ts`) are not part of this model. A backend call returns its outcome as a parameter.
- The browser storage wrapper (`src/utils/localStorage.utils.ts`) is modelled as a plain map. Storage that is unavailable, or that throws, is not modelled.
- The route table (`src/App.tsx`) is configuration. It gives `/chat` and `/chat/:id` the same page element, so a route change keeps the chat page and its sidebar mounted. The model shows this as two methods called together: `Conversation.ChatPage.Navigate` and `Sessions.ChatHistory.Navigate`. Each changes its component's id and keeps the rest of its state. The model does not tie the two calls to each other.
- JSX markup, CSS, scrolling, the textarea auto-resize, icons and the `toLocaleTimeString` timestamp are presentation. The sidebar visibility flag is kept only for the handlers that close it.
- The clear-all button's `disabled={sessions.length === 0}` and the empty-state "New Chat" button are presentation. Both only decide whether a handler can be called.
- Async interleavings are not modelled. A send and its reply happen in one call. Responses that resolve after navigation are not modelled. The delete handler's closure over a stale `sessions` value is not modelled.
- `Common.ParseInt` reads only a leading run of decimal digits. JavaScript's `parseInt` without a radix also skips leading blanks, accepts a sign, and reads a `0x`/`0X` prefix as hexadecimal (`parseInt("0x1f")` is 31); the model gives the value of the leading decimal digits instead (0 for "0x1f"). The age caption treats every segment that does not start with a decimal digit as NaN and gives "Just now", and the sort reads such a segment as 0. For the age caption this agrees with the source when the segment really gives NaN. It differs for a segment with leading blanks or a sign, such as " 5" or "-5", where `parseInt` gives a number and the source shows an age. For the sort it does not agree even for a real NaN. The comparator then returns `timeB - timeA` = NaN, which `Array.prototype.sort` reads as "equal". So the source treats such an entry as tied with every other entry, and with three or more entries its comparator is no longer consistent, which leaves the order to the engine. The model instead sorts the entry as 0 and lists it after every entry with a positive timestamp. For example, the source keeps `[a:x, a:5]` as it is, while the model gives `[a:5, a:x]`. Ids minted by the client are plain decimal numerals, so none of these cases arise for them.
- `Common.NatToString`: JavaScript numbers are doubles. Clock readings past 2^53 (and the exponent notation past 10^21) are not modelled. Neither is the `Date` range limit behind `getSessionTime`.
- `Store.StoredSessions`: the store holds the sessions list as a list, not as its JSON text, so `JSON.stringify` and `JSON.parse` are not modelled. Any text under "sessions" reads as an empty list. In the source the empty text does read as [], but other text is parsed: valid JSON for a list of sessions gives that list, and anything else throws or gives a value that is not a list.
- `Typing.TypingText.Tick` follows the intended reveal `Step`, in which each firing shows `charAt(i)` before `i++`. The code as written shows `charAt(i + 1)` when React applies the updater at the next render; that reading is `StepQueued`, with its own lemmas (see Findings). React may also apply an updater at once when nothing is pending, so the screen can mix the two; that mix is not modelled.
- `Typing.RunSpec` states the intended reveal; what the code as written shows is stated by `Typing.RunQueuedSpec` (see Findings).
- `Typing.StopsOnLastTick`: the stopping tick holds for both readings; "the full text is shown by then" holds only for the intended reveal (with the updater applied at the next render the first character is missing, `Typing.QueuedRevealDropsFirstCharacter`).
- `Typing.TypingText.Animate` runs the intended reveal; its final `displayed == text` does not hold for the code as written, where the reveal ends one character short. The settled reply is then shown as plain text in full (`Typing.SettlingEndsTyping`).
- `Scenarios.HelloReveal` is the intended reveal; the code as written is `Scenarios.HelloRevealQueued`.
- `Typing.MarkSettled`: the reply's object identity (`m === message`) is replaced by its position in the log plus value equality.
- `Conversation.ChatPage.Navigate` keeps the log as the code does; `Conversation.ChatPage.Remount` is the corrected route change (see Findings). Nothing else in the model depends on which one is used.
- `Sessions.ChatHistory.NewSession` reads the stored username when it is called, rather than at the last render. Nothing writes the username while the sidebar is mounted, so the two readings agree.
- `Typing.CharAt`, `Typing.TickCount` and `Common.Last` count Unicode scalar values, since a Dafny string is a sequence of them. JavaScript's `length`, `charAt` and `slice` count UTF-16 code units instead. For a reply holding characters beyond U+FFFF, such as emoji, the source fires more ticks than the model and shows half a character (a lone surrogate) on some of them. The same goes for `slice(-4)` in the session title and the header, which can cut such a character in half.
- `Welcome.WelcomePage.Submit` reads the stored name and username when it is called, rather than at the last render. The page writes nothing between a render and a submit, so the two readings agree.

## Findings

| source | as written | input that shows it | evidently intended | confidence | as-written member | corrected member |
|---|---|---|---|---|---|---|
| src/components/TypingText.tsx:17-18 | the `setDisplayed` updater reads the closure counter `i`, which `i++` has already incremented when React applies the updater at the next render, so each firing shows `charAt(i + 1)` | if every updater is applied at the next render, the reply "hello" shows "e", "el", "ell", "ello", "ello" and never "h" during the reveal; React may apply an update at once when nothing is pending (likely on the first firing); if only the first firing is applied at once, the screen reads "h", "hl", "hll", "hllo", "hllo", which also skips characters | each firing shows the next character, ending with the whole reply | not executed; result depends on when React applies the updater | `Typing.RunQueuedSpec`, `Typing.QueuedRevealDropsFirstCharacter`, `Scenarios.HelloRevealQueued` | `Typing.RunSpec`, `Typing.TypingText.Animate`, `Scenarios.HelloReveal` |
| src/pages/ChatPage.tsx:17-38 | the page stays mounted across a change of `:id`, and the log is replaced only when the new session's history arrives | open session "a" with history h, switch to "b", the history request for "b" fails, send "hi": the log shown for "b" is h followed by "hi" | the log shown for a session holds only that session's messages | not executed | `Conversation.ChatPage.Navigate`, `Scenarios.StaleLogAfterSwitch` | `Conversation.ChatPage.Remount`, `Scenarios.FreshLogAfterSwitch` |
