/**
 * The localStorage records of js/app.js: the event list under
 * "shoreSquadEvents", the display name under "userName" and the joined ids
 * under "eventsJoined". The store holds the structured values that the JSON
 * text of each key encodes.
 */
module Storage {
  import opened Wrappers
  import opened Events

  const EventsKey: string := "shoreSquadEvents"
  const UserNameKey: string := "userName"
  const JoinedKey: string := "eventsJoined"

  /** The name AppState starts with when no non-empty name is stored. */
  const DefaultUserName: string := "Crew Member"

  /** A stored value: an event array, a plain text, or an id array. */
  datatype Stored = EventsJson(events: seq<Event>) | PlainText(text: string) | IdsJson(ids: seq<int>)

  type Store = map<string, Stored>

  /** loadEventsFromStorage's read: the stored list, or None when the key is absent. */
  function LoadEvents(store: Store): Option<seq<Event>>
  {
    if EventsKey in store && store[EventsKey].EventsJson? then Some(store[EventsKey].events) else None
  }

  /** localStorage.getItem('userName') || 'Crew Member': never empty. */
  function LoadUserName(store: Store): (name: string)
    ensures name != ""
    ensures UserNameKey !in store ==> name == DefaultUserName
  {
    if UserNameKey in store && store[UserNameKey].PlainText? && store[UserNameKey].text != ""
    then store[UserNameKey].text
    else DefaultUserName
  }

  /** JSON.parse(localStorage.getItem('eventsJoined')) || []. */
  function LoadJoined(store: Store): (ids: seq<int>)
    ensures JoinedKey !in store ==> ids == []
  {
    if JoinedKey in store && store[JoinedKey].IdsJson? then store[JoinedKey].ids else []
  }

  /** saveEventsToStorage: the list reads back as it was written, and the user record is untouched. */
  function SaveEvents(store: Store, events: seq<Event>): (r: Store)
    ensures LoadEvents(r) == Some(events)
    ensures LoadUserName(r) == LoadUserName(store) && LoadJoined(r) == LoadJoined(store)
    ensures forall k :: k != EventsKey ==> (k in r <==> k in store)
    ensures forall k :: k != EventsKey && k in store ==> r[k] == store[k]
  {
    store[EventsKey := EventsJson(events)]
  }

  /**
   * saveUserToStorage: the ids read back as written, and so does the name
   * unless it is empty, which reads back as the default name.
   */
  function SaveUser(store: Store, name: string, joined: seq<int>): (r: Store)
    ensures LoadJoined(r) == joined
    ensures LoadUserName(r) == if name == "" then DefaultUserName else name
    ensures LoadEvents(r) == LoadEvents(store)
    ensures forall k :: k != UserNameKey && k != JoinedKey ==> (k in r <==> k in store)
    ensures forall k :: k != UserNameKey && k != JoinedKey && k in store ==> r[k] == store[k]
  {
    store[UserNameKey := PlainText(name)][JoinedKey := IdsJson(joined)]
  }

  /** Saving the same user record and list a second time leaves the store as the first save did. */
  lemma SaveUserEventsTwice(store: Store, name: string, joined: seq<int>, events: seq<Event>)
    ensures var once := SaveEvents(SaveUser(store, name, joined), events);
      SaveEvents(SaveUser(once, name, joined), events) == once
  {
    var once := SaveEvents(SaveUser(store, name, joined), events);
    var twice := SaveEvents(SaveUser(once, name, joined), events);
    assert twice.Keys == once.Keys;
    assert forall k :: k in once ==> twice[k] == once[k];
  }
}
