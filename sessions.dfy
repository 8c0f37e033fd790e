/** The session registry of the sidebar (src/components/ChatHistory.tsx): a
    list of `{id, title}` entries kept in component state and mirrored into
    the key-value store under "sessions". */
module Sessions {
  import opened Common
  import opened Types
  import opened Store

  // ---------------------------------------------------------------------------
  // Ids, titles and timestamps
  // ---------------------------------------------------------------------------

  /** The id minted for a new session: `${username}:${now}`. */
  function NewId(username: string, now: nat): string {
    username + ":" + NatToString(now)
  }

  /** The title fixed at creation: "Session " and the id's last 4 characters. */
  function TitleFor(id: string): string {
    "Session " + Last(id, 4)
  }

  /** `id.split(":")[1]`; None when the id holds no ':'. */
  function SecondSegment(id: string): Option<string> {
    var parts := Split(id, ':');
    if |parts| > 1 then Some(parts[1]) else None
  }

  /** The sort key `parseInt(id.split(":")[1] || "0")`. */
  function Timestamp(id: string): nat {
    var segment := SecondSegment(id);
    ParseInt(if segment.Some? && segment.value != "" then segment.value else "0")
  }

  /** A freshly minted id splits back into the username and the clock digits,
      provided the username holds no ':' (a UUID never does). */
  lemma NewIdParts(username: string, now: nat)
    requires ':' !in username
    ensures Split(NewId(username, now), ':') == [username, NatToString(now)]
  {
    var digits := NatToString(now);
    assert ':' !in digits;
    SplitAfterSeparator(username, digits, ':');
    SplitWithoutSeparator(digits, ':');
  }

  /** The sort key of a freshly minted id is the clock reading it was made from. */
  lemma NewIdTimestamp(username: string, now: nat)
    requires ':' !in username
    ensures SecondSegment(NewId(username, now)) == Some(NatToString(now))
    ensures Timestamp(NewId(username, now)) == now
  {
    NewIdParts(username, now);
    ParseIntOfNatToString(now);
  }

  /** Once the clock has four digits, the title shows the last four digits of
      the creation time, whatever the username. */
  lemma NewTitleShowsClockDigits(username: string, now: nat)
    requires now >= 1000
    ensures TitleFor(NewId(username, now)) == "Session " + Last(NatToString(now), 4)
  {
    var digits := NatToString(now);
    NatToStringLength(now, 3);
    SuffixOfConcat(username + ":", digits, 4);
  }

  lemma SuffixOfConcat(a: string, b: string, n: nat)
    requires n <= |b|
    ensures (a + b)[|a + b| - n..] == b[|b| - n..]
  {
    assert (a + b)[|a|..] == b;
    assert (a + b)[|a + b| - n..] == (a + b)[|a|..][|b| - n..];
  }

  // ---------------------------------------------------------------------------
  // Most-recent-first ordering (the comparator `timeB - timeA`)
  // ---------------------------------------------------------------------------

  function Key(s: Session): nat {
    Timestamp(s.id)
  }

  /** Non-increasing by `key`. */
  ghost predicate Descending<T>(list: seq<T>, key: T -> nat) {
    forall i, j :: 0 <= i < j < |list| ==> key(list[i]) >= key(list[j])
  }

  /** Puts `x` ahead of the first entry whose key is not larger, so it stays
      ahead of the entries it ties with. */
  function Insert<T(==)>(x: T, list: seq<T>, key: T -> nat): (r: seq<T>)
    ensures multiset(r) == multiset(list) + multiset{x}
    ensures Descending(list, key) ==> Descending(r, key)
  {
    if list == [] || key(x) >= key(list[0]) then [x] + list
    else
      var rest := Insert(x, list[1..], key);
      assert list == [list[0]] + list[1..];
      assert Descending(list, key) ==> Descending([list[0]] + rest, key) by {
        if Descending(list, key) {
          DescendingTail(list, key);
          HeadDominates(list[0], list[1..], x, rest, key);
        }
      }
      [list[0]] + rest
  }

  lemma DescendingTail<T>(list: seq<T>, key: T -> nat)
    requires list != [] && Descending(list, key)
    ensures Descending(list[1..], key)
  {
    var rest := list[1..];
    forall i, j | 0 <= i < j < |rest| ensures key(rest[i]) >= key(rest[j]) {
      assert rest[i] == list[i + 1] && rest[j] == list[j + 1];
    }
  }

  /** A head at least as large as everything in a descending tail keeps the
      whole list descending. */
  lemma HeadDominates<T>(h: T, tail: seq<T>, x: T, rest: seq<T>, key: T -> nat)
    requires Descending([h] + tail, key) && key(h) >= key(x)
    requires multiset(rest) == multiset(tail) + multiset{x}
    requires Descending(rest, key)
    ensures Descending([h] + rest, key)
  {
    var r := [h] + rest;
    forall i, j | 0 <= i < j < |r| ensures key(r[i]) >= key(r[j]) {
      if i > 0 {
        assert r[i] == rest[i - 1] && r[j] == rest[j - 1];
      } else {
        var y := rest[j - 1];
        assert r[0] == h && r[j] == y;
        assert y in multiset(rest);
        if y != x {
          assert y in multiset(tail);
          var k :| 0 <= k < |tail| && tail[k] == y;
          assert ([h] + tail)[0] == h && ([h] + tail)[k + 1] == y;
        }
      }
    }
  }

  /** Stable insertion sort by descending key. */
  function SortDescending<T(==)>(list: seq<T>, key: T -> nat): (r: seq<T>)
    ensures multiset(r) == multiset(list)
    ensures Descending(r, key)
  {
    if list == [] then []
    else
      assert list == [list[0]] + list[1..];
      Insert(list[0], SortDescending(list[1..], key), key)
  }

  /** The entries of `list` whose key is `t`, in their order. */
  function WithKey<T>(list: seq<T>, key: T -> nat, t: nat): seq<T> {
    if list == [] then []
    else (if key(list[0]) == t then [list[0]] else []) + WithKey(list[1..], key, t)
  }

  lemma {:induction false} InsertKeepsTies<T>(x: T, list: seq<T>, key: T -> nat, t: nat)
    requires Descending(list, key)
    ensures WithKey(Insert(x, list, key), key, t) == WithKey([x] + list, key, t)
  {
    if list == [] || key(x) >= key(list[0]) {
    } else {
      var rest := list[1..];
      assert Descending(rest, key) by {
        forall i, j | 0 <= i < j < |rest| ensures key(rest[i]) >= key(rest[j]) {
          assert rest[i] == list[i + 1] && rest[j] == list[j + 1];
        }
      }
      InsertKeepsTies(x, rest, key, t);
      assert ([list[0]] + Insert(x, rest, key))[1..] == Insert(x, rest, key);
      assert ([x] + list)[1..] == list;
      assert ([x] + rest)[1..] == rest;
    }
  }

  /** Stability: entries with equal keys keep their relative order. */
  lemma {:induction false} SortKeepsTies<T>(list: seq<T>, key: T -> nat, t: nat)
    ensures WithKey(SortDescending(list, key), key, t) == WithKey(list, key, t)
  {
    if list != [] {
      SortKeepsTies(list[1..], key, t);
      InsertKeepsTies(list[0], SortDescending(list[1..], key), key, t);
      assert ([list[0]] + SortDescending(list[1..], key))[1..] == SortDescending(list[1..], key);
    }
  }

  /** The order `sessions.sort((a, b) => timeB - timeA)` leaves the list in:
      ECMAScript's `sort` is stable, so this is the stable sort by descending
      timestamp. */
  function SortByRecency(list: seq<Session>): seq<Session> {
    SortDescending(list, Key)
  }

  /** What the sidebar shows is a permutation of the sessions, most recent
      first, with sessions of equal timestamp in their earlier order. */
  lemma SortByRecencySpec(list: seq<Session>)
    ensures multiset(SortByRecency(list)) == multiset(list)
    ensures forall i, j :: 0 <= i < j < |SortByRecency(list)| ==>
              Timestamp(SortByRecency(list)[i].id) >= Timestamp(SortByRecency(list)[j].id)
    ensures forall t: nat :: WithKey(SortByRecency(list), Key, t) == WithKey(list, Key, t)
  {
    var r := SortByRecency(list);
    assert Descending(r, Key);
    forall t: nat ensures WithKey(r, Key, t) == WithKey(list, Key, t) {
      SortKeepsTies(list, Key, t);
    }
  }

  /** For ids minted by `NewId` from one username, the sidebar lists the
      later-created session first. */
  lemma LaterSessionListedFirst(username: string, t1: nat, t2: nat)
    requires ':' !in username && t1 < t2
    ensures var a := Session(NewId(username, t1), TitleFor(NewId(username, t1)));
            var b := Session(NewId(username, t2), TitleFor(NewId(username, t2)));
            SortByRecency([a, b]) == [b, a]
  {
    var a := Session(NewId(username, t1), TitleFor(NewId(username, t1)));
    var b := Session(NewId(username, t2), TitleFor(NewId(username, t2)));
    assert Key(a) < Key(b) by {
      NewIdTimestamp(username, t1);
      NewIdTimestamp(username, t2);
    }
    SortPair(a, b, Key);
  }

  /** Two entries are listed larger key first. */
  lemma SortPair<T>(x: T, y: T, key: T -> nat)
    requires key(x) < key(y)
    ensures SortDescending([x, y], key) == [y, x]
  {
    assert [x, y][1..] == [y];
    assert SortDescending([y], key) == [y] by {
      assert [y][1..] == [];
    }
  }

  // ---------------------------------------------------------------------------
  // Removing one session (`sessions.filter((s) => s.id !== idToDelete)`)
  // ---------------------------------------------------------------------------

  /** `sessions.filter((s) => s.id !== id)`: no entry left carries `id`. */
  function RemoveId(list: seq<Session>, id: string): (r: seq<Session>)
    ensures |r| <= |list|
    ensures forall k :: 0 <= k < |r| ==> r[k].id != id
  {
    if list == [] then []
    else (if list[0].id == id then [] else [list[0]]) + RemoveId(list[1..], id)
  }

  /** Every entry with another id survives the filter as often as it occurred,
      and none with `id` does. */
  lemma {:induction false} RemoveIdCounts(list: seq<Session>, id: string, s: Session)
    ensures multiset(RemoveId(list, id))[s] == if s.id == id then 0 else multiset(list)[s]
  {
    if list != [] {
      var head := if list[0].id == id then [] else [list[0]];
      var rest := RemoveId(list[1..], id);
      RemoveIdCounts(list[1..], id, s);
      assert RemoveId(list, id) == head + rest;
      assert multiset(RemoveId(list, id)) == multiset(head) + multiset(rest);
      assert list == [list[0]] + list[1..];
      assert multiset(list) == multiset([list[0]]) + multiset(list[1..]);
    }
  }

  /** The filter keeps relative order: it works piecewise over a concatenation. */
  lemma {:induction false} RemoveIdConcat(a: seq<Session>, b: seq<Session>, id: string)
    ensures RemoveId(a + b, id) == RemoveId(a, id) + RemoveId(b, id)
  {
    if a != [] {
      RemoveIdConcat(a[1..], b, id);
      assert (a + b)[0] == a[0] && (a + b)[1..] == a[1..] + b;
    } else {
      assert a + b == b;
    }
  }

  /** Deleting an id no entry carries changes nothing. */
  lemma {:induction false} RemoveAbsentId(list: seq<Session>, id: string)
    requires forall k :: 0 <= k < |list| ==> list[k].id != id
    ensures RemoveId(list, id) == list
  {
    if list != [] {
      RemoveAbsentId(list[1..], id);
      assert list == [list[0]] + list[1..];
    }
  }

  // ---------------------------------------------------------------------------
  // Relative age label (`getSessionTime`)
  // ---------------------------------------------------------------------------

  const MsPerHour: nat := 3600000
  const MsPerDay: nat := 86400000

  /** The label under each session title, given the current clock `now`:
      nothing when the id has no (or an empty) second segment; "Just now" when
      the segment does not start with a digit (`parseInt` gives NaN, and every
      comparison with NaN is false); else the caption for the age of the
      timestamp. */
  function SessionTime(id: string, now: int): string {
    var timestamp := SecondSegment(id);
    if timestamp.None? || timestamp.value == "" then ""
    else if LeadingDigits(timestamp.value) == "" then "Just now"
    else AgeCaption(now - ParseInt(timestamp.value))
  }

  /** The caption for an age of `diffMs` milliseconds. Dafny's `/` rounds down
      for a positive divisor, as `Math.floor` does, so a negative age (a
      timestamp in the future) reads "Just now". */
  function AgeCaption(diffMs: int): string {
    var diffHours := diffMs / MsPerHour;
    var diffDays := diffHours / 24;
    if diffDays > 0 then NatToString(diffDays) + "d ago"
    else if diffHours > 0 then NatToString(diffHours) + "h ago"
    else "Just now"
  }

  /** Whole hours, then whole days, is whole days. */
  lemma FloorHoursThenDays(ms: int)
    ensures (ms / MsPerHour) / 24 == ms / MsPerDay
  {
    var h, r1 := ms / MsPerHour, ms % MsPerHour;
    var d, r2 := h / 24, h % 24;
    assert ms == MsPerDay * d + (MsPerHour * r2 + r1);
    assert 0 <= MsPerHour * r2 + r1 < MsPerDay;
  }

  /** Whole days from one day of age on, whole hours from one hour on, else
      "Just now". */
  lemma AgeCaptionSpec(age: int)
    ensures age >= MsPerDay ==> AgeCaption(age) == NatToString(age / MsPerDay) + "d ago"
    ensures MsPerHour <= age < MsPerDay ==> AgeCaption(age) == NatToString(age / MsPerHour) + "h ago"
    ensures age < MsPerHour ==> AgeCaption(age) == "Just now"
  {
    FloorHoursThenDays(age);
    if age >= MsPerHour {
      assert age / MsPerHour >= 1;
    }
    if age < MsPerDay {
      assert age / MsPerDay <= 0;
    }
    if age < MsPerHour {
      assert age / MsPerHour <= 0;
    }
  }

  /** The label by age in milliseconds: none without a timestamp, whole days
      from one day on, whole hours from one hour on, else "Just now". */
  lemma SessionTimeByAge(id: string, now: int)
    ensures var timestamp := SecondSegment(id);
            var caption := SessionTime(id, now);
            (timestamp.None? || timestamp.value == "" ==> caption == "")
            && (timestamp.Some? && timestamp.value != "" && LeadingDigits(timestamp.value) == "" ==>
                  caption == "Just now")
            && (timestamp.Some? && LeadingDigits(timestamp.value) != "" ==>
                  var age := now - ParseInt(timestamp.value);
                  (age >= MsPerDay ==> caption == NatToString(age / MsPerDay) + "d ago")
                  && (MsPerHour <= age < MsPerDay ==> caption == NatToString(age / MsPerHour) + "h ago")
                  && (age < MsPerHour ==> caption == "Just now"))
  {
    var timestamp := SecondSegment(id);
    if timestamp.Some? && LeadingDigits(timestamp.value) != "" {
      AgeCaptionSpec(now - ParseInt(timestamp.value));
    }
  }

  // ---------------------------------------------------------------------------
  // The sidebar component
  // ---------------------------------------------------------------------------

  /** A `DELETE /chat/{id}?all={all}` request handed to the backend. */
  datatype ResetRequest = ResetRequest(id: string, all: bool)

  class ChatHistory {
    const storage: LocalStorage
    /** The session id of the current route ("" when there is none). */
    var activeId: string
    var sessions: seq<Session>
    var isHistoryVisible: bool

    /** The in-memory list holds what the store holds; only the in-place sort
        of rendering can make their orders differ. */
    ghost predicate Valid()
      reads this, storage
    {
      multiset(sessions) == multiset(StoredSessions(storage.items))
    }

    /** Mounting reads the stored list once. */
    constructor (storage: LocalStorage, activeId: string, isHistoryVisible: bool)
      ensures this.storage == storage && this.activeId == activeId
      ensures this.isHistoryVisible == isHistoryVisible
      ensures sessions == StoredSessions(storage.items)
      ensures Valid()
    {
      this.storage := storage;
      this.activeId := activeId;
      this.isHistoryVisible := isHistoryVisible;
      sessions := StoredSessions(storage.items);
    }

    /** `handleNewSession`, with `now` the reading of `Date.now()`. */
    method NewSession(now: nat) returns (created: Session, route: string)
      requires Valid()
      modifies this`sessions, this`isHistoryVisible, storage
      ensures created.id == NewId(TextOr(old(storage.items), UsernameKey), now)
      ensures created.title == TitleFor(created.id)
      ensures sessions == old(sessions) + [created]
      ensures storage.items == old(storage.items)[SessionsKey := SessionList(sessions)]
      ensures StoredSessions(storage.items) == sessions
      ensures route == "/chat/" + created.id && !isHistoryVisible
      ensures Valid()
    {
      var savedUsername := TextOr(storage.items, UsernameKey);
      var newId := NewId(savedUsername, now);
      created := Session(newId, TitleFor(newId));
      var updated := sessions + [created];
      sessions := updated;
      storage.items := storage.items[SessionsKey := SessionList(updated)];
      route := "/chat/" + newId;
      isHistoryVisible := false;
    }

    /** `handleClearAllSessions`: `confirmed` is the answer to the dialog and
        `succeeded` the backend's outcome for the request, if one is sent. */
    method ClearAll(confirmed: bool, succeeded: bool) returns (request: Option<ResetRequest>, route: Option<string>)
      requires Valid()
      modifies this`sessions, this`isHistoryVisible, storage
      ensures var username := TextOr(old(storage.items), UsernameKey);
              request == if username != "" && confirmed then Some(ResetRequest(username, true)) else None
      ensures request.Some? && succeeded ==>
                sessions == [] && storage.items == old(storage.items)[SessionsKey := SessionList([])]
                && route == Some("/chat") && !isHistoryVisible
      ensures !(request.Some? && succeeded) ==>
                sessions == old(sessions) && storage.items == old(storage.items)
                && route == None && isHistoryVisible == old(isHistoryVisible)
      ensures Valid()
    {
      request, route := None, None;
      var idToDelete := TextOr(storage.items, UsernameKey);
      if idToDelete == "" {
        return;
      }
      if !confirmed {
        return;
      }
      request := Some(ResetRequest(idToDelete, true));
      if succeeded {
        sessions := [];
        storage.items := storage.items[SessionsKey := SessionList([])];
        route := Some("/chat");
        isHistoryVisible := false;
      }
    }

    /** `handleDeleteSession(idToDelete)`: `confirmed` is the answer to the
        dialog and `succeeded` the backend's outcome for the request. */
    method Delete(idToDelete: string, confirmed: bool, succeeded: bool)
      returns (request: Option<ResetRequest>, route: Option<string>)
      requires Valid()
      modifies this`sessions, this`isHistoryVisible, storage
      ensures request == if idToDelete != "" && confirmed then Some(ResetRequest(idToDelete, false)) else None
      ensures request.Some? && succeeded ==>
                sessions == RemoveId(old(sessions), idToDelete)
                && storage.items == old(storage.items)[SessionsKey := SessionList(sessions)]
                && route == (if activeId == idToDelete then Some("/chat") else None)
                && !isHistoryVisible
      ensures !(request.Some? && succeeded) ==>
                sessions == old(sessions) && storage.items == old(storage.items)
                && route == None && isHistoryVisible == old(isHistoryVisible)
      ensures Valid()
    {
      request, route := None, None;
      if idToDelete == "" {
        return;
      }
      if !confirmed {
        return;
      }
      request := Some(ResetRequest(idToDelete, false));
      if succeeded {
        var newSessions := RemoveId(sessions, idToDelete);
        sessions := newSessions;
        storage.items := storage.items[SessionsKey := SessionList(newSessions)];
        if activeId == idToDelete {
          route := Some("/chat");
        }
        isHistoryVisible := false;
      }
    }

    /** A change of the route's session id. The sidebar is part of the chat
        page, which stays mounted, so only the id that `useParams()` reports
        changes. */
    method Navigate(newId: string)
      requires Valid()
      modifies this`activeId
      ensures activeId == newId
      ensures sessions == old(sessions) && isHistoryVisible == old(isHistoryVisible)
      ensures Valid()
    {
      activeId := newId;
    }

    /** Rendering the list: `sessions.sort(...)` reorders the state array in
        place and the sorted array is what is shown. */
    method Render() returns (shown: seq<Session>)
      requires Valid()
      modifies this`sessions
      ensures sessions == SortByRecency(old(sessions)) && shown == sessions
      ensures Valid()
    {
      sessions := SortByRecency(sessions);
      shown := sessions;
    }
  }
}
