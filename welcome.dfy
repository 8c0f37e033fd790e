/** The name-entry page (src/pages/WelcomePage.tsx): on first use it stores
    the typed name and a fresh random username, then always moves on to the
    chat view. */
module Welcome {
  import opened Common
  import opened Store

  /** Registration happens when neither a name nor a username is stored (an
      empty stored text counts as none) and the typed name is not blank. */
  predicate Registers(items: map<string, Stored>, name: string) {
    TextOr(items, NameKey) == "" && TextOr(items, UsernameKey) == "" && Trim(name) != ""
  }

  /** The two writes of a registration: the name exactly as typed, and the
      fresh username `uuid`. */
  function Register(items: map<string, Stored>, name: string, uuid: string): (after: map<string, Stored>)
    ensures after.Keys == items.Keys + {NameKey, UsernameKey}
    ensures TextOr(after, NameKey) == name && TextOr(after, UsernameKey) == uuid
    ensures forall key :: key in items && key != NameKey && key != UsernameKey ==> after[key] == items[key]
  {
    items[NameKey := Text(name)][UsernameKey := Text(uuid)]
  }

  /** A typed name that is not blank is not empty either, so the name stored
      by a registration blocks every later one: registration happens at most
      once. */
  lemma RegistersAtMostOnce(items: map<string, Stored>, name: string, uuid: string, later: string)
    requires Registers(items, name)
    ensures TextOr(Register(items, name, uuid), NameKey) != ""
    ensures !Registers(Register(items, name, uuid), later)
  {
  }

  /** Registration is decided by the stored texts and the typed name being
      blank or not. */
  lemma RegistersIffNotBlank(items: map<string, Stored>, name: string)
    ensures Registers(items, name) <==>
              TextOr(items, NameKey) == "" && TextOr(items, UsernameKey) == "" && !IsBlank(name)
  {
    TrimEmptyIffBlank(name);
  }

  class WelcomePage {
    const storage: LocalStorage
    /** The text field. */
    var name: string
    /** The name the greeting shows once registered. */
    var submittedName: string

    constructor (storage: LocalStorage)
      ensures this.storage == storage && name == ""
      ensures submittedName == TextOr(storage.items, NameKey)
    {
      this.storage := storage;
      name := "";
      submittedName := TextOr(storage.items, NameKey);
    }

    /** The input's `onChange`. */
    method SetName(text: string)
      modifies this`name
      ensures name == text
    {
      name := text;
    }

    /** `handleSubmit`, with `uuid` the value `crypto.randomUUID()` yields. */
    method Submit(uuid: string) returns (route: string)
      modifies this`submittedName, storage
      ensures Registers(old(storage.items), name) ==>
                storage.items == Register(old(storage.items), name, uuid) && submittedName == name
      ensures !Registers(old(storage.items), name) ==>
                storage.items == old(storage.items) && submittedName == old(submittedName)
      ensures route == "/chat"
    {
      var savedName := TextOr(storage.items, NameKey);
      var savedUsername := TextOr(storage.items, UsernameKey);
      assert Registers(storage.items, name) <==> |savedName| == 0 && |savedUsername| == 0 && Trim(name) != "";
      if |savedName| == 0 && |savedUsername| == 0 && Trim(name) != "" {
        storage.items := Register(storage.items, name, uuid);
        submittedName := name;
      }
      route := "/chat";
    }
  }
}
