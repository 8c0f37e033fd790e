/** The browser's persistent key-value store, as seen through
    `getLocalItem` / `setLocalItem`. The serialized session list is kept as
    the list itself, so `JSON.parse(JSON.stringify(list)) == list` holds by
    construction. */
module Store {
  import opened Types

  datatype Stored = Text(text: string) | SessionList(list: seq<Session>)

  const NameKey: string := "name"
  const UsernameKey: string := "username"
  const SessionsKey: string := "sessions"

  /** The one store shared by every page of the client. */
  class LocalStorage {
    var items: map<string, Stored>

    constructor (items: map<string, Stored>)
      ensures this.items == items
    {
      this.items := items;
    }
  }

  /** `getLocalItem(key) || ""`: the stored text, or "" when the key is absent. */
  function TextOr(items: map<string, Stored>, key: string): string {
    if key in items && items[key].Text? then items[key].text else ""
  }

  /** `previousSessions ? JSON.parse(previousSessions) : []` for the sessions
      key: the stored list, or [] when nothing (or an empty text) is stored. */
  function StoredSessions(items: map<string, Stored>): seq<Session> {
    if SessionsKey in items && items[SessionsKey].SessionList? then items[SessionsKey].list else []
  }
}
