/**
 * AppState of js/app.js as an object whose fields the handlers update in
 * place. Each method performs the source's statements and is specified by the
 * matching transition of Board on Current(), the abstract value of the fields.
 */
module App {
  import opened Wrappers
  import opened Events
  import opened Storage
  import Seqs
  import Board

  class AppState {
    var events: seq<Event>
    var userName: string
    var eventsJoined: seq<int>
    var activeEvents: int
    var members: int
    var trashCollected: int
    /** localStorage, which the storage helpers write. */
    var store: Store

    /**
     * The display name is never empty: it is read with a fallback and never
     * reassigned. Join and leave need it to keep the store equal to the session.
     */
    ghost predicate Valid()
      reads this
    {
      userName != ""
    }

    function Current(): Board.State
      reads this
    {
      Board.State(events, userName, eventsJoined, store)
    }

    /** The AppState initialiser, reading the user record from the given store. */
    constructor (saved: Store)
      ensures Valid()
      ensures Current() == Board.Boot(saved)
      ensures activeEvents == 0 && members == Board.BaseMembers && trashCollected == Board.TrashCollected
    {
      events := [];
      userName := LoadUserName(saved);
      eventsJoined := LoadJoined(saved);
      store := saved;
      activeEvents, members, trashCollected := 0, Board.BaseMembers, Board.TrashCollected;
    }

    method SaveEventsToStorage()
      modifies this`store
      ensures store == SaveEvents(old(store), events)
    {
      store := store[EventsKey := EventsJson(events)];
    }

    method LoadEventsFromStorage()
      modifies this`events
      ensures Current() == Board.LoadEventsInto(old(Current()))
    {
      if EventsKey in store && store[EventsKey].EventsJson? {
        events := store[EventsKey].events;
      }
    }

    method SaveUserToStorage()
      modifies this`store
      ensures store == SaveUser(old(store), userName, eventsJoined)
    {
      store := store[UserNameKey := PlainText(userName)];
      store := store[JoinedKey := IdsJson(eventsJoined)];
    }

    /** updateStats: the event count and the demo member count. */
    method UpdateStats()
      modifies this`activeEvents, this`members
      ensures activeEvents == |events|
      ensures members == Board.MemberCount(|eventsJoined|)
      ensures members == Board.BaseMembers + |eventsJoined| / 2
    {
      activeEvents := |events|;
      members := Board.MemberCount(|eventsJoined|);
    }

    /** The state step of renderDemoEvents. */
    method RenderDemoEvents(createdAt: string)
      modifies this`events, this`store
      ensures Current() == Board.Seed(old(Current()), createdAt)
      ensures Board.Persisted(old(Current())) ==> Board.Persisted(Current())
    {
      ghost var before := Current();
      if |events| == 0 {
        events := DemoEvents(createdAt);
        SaveEventsToStorage();
      }
      if Board.Persisted(before) {
        Board.SeedPersists(before, createdAt);
      }
    }

    /** initializeApp without the listeners and the date input: load, seed, count. */
    method Initialize(createdAt: string)
      requires Valid()
      modifies this
      ensures Valid()
      ensures Current() == Board.Initialize(old(Current()), createdAt)
      ensures Board.Persisted(old(Current())) ==> Board.Persisted(Current())
      ensures activeEvents == |events| && members == Board.MemberCount(|eventsJoined|)
      ensures trashCollected == old(trashCollected)
    {
      LoadEventsFromStorage();
      RenderDemoEvents(createdAt);
      UpdateStats();
    }

    /**
     * handleFormSubmit. The clock (Date.now() as now, toISOString() as
     * createdAt) and Math.random() (as roll) are parameters; the result tells
     * which alert the source shows.
     */
    method HandleFormSubmit(form: EventForm, now: int, roll: real, createdAt: string) returns (created: bool)
      requires Valid()
      requires 0.0 <= roll < 1.0
      modifies this
      ensures Valid()
      ensures Current() == Board.Submit(old(Current()), form, now, RandomWeather(roll), createdAt)
      ensures Board.Persisted(old(Current())) ==> Board.Persisted(Current())
      ensures created <==> form.name != "" && form.date != "" && form.time != "" && form.location != ""
      ensures created ==> activeEvents == |events| && members == Board.MemberCount(|eventsJoined|)
      ensures !created ==> activeEvents == old(activeEvents) && members == old(members)
      ensures trashCollected == old(trashCollected)
    {
      ghost var before := Current();
      if Board.Persisted(before) {
        Board.SubmitPersists(before, form, now, RandomWeather(roll), createdAt);
      }
      var eventData := NewEvent(form, now, userName, RandomWeather(roll), createdAt);
      if !IsValidEvent(eventData) {
        return false;
      }
      events := [eventData] + events;
      SaveEventsToStorage();
      UpdateStats();
      created := true;
    }

    /** handleJoinEvent for the id parsed from the button. */
    method HandleJoinEvent(eventId: int)
      requires Valid()
      modifies this
      ensures Valid()
      ensures Current() == Board.Join(old(Current()), eventId)
      ensures Board.Persisted(old(Current())) ==> Board.Persisted(Current())
      ensures activeEvents == old(activeEvents) && members == old(members)
      ensures trashCollected == old(trashCollected)
    {
      ghost var before := Current();
      if Board.Persisted(before) {
        Board.JoinPersists(before, eventId);
      }
      if eventId !in eventsJoined {
        eventsJoined := eventsJoined + [eventId];
        var found := FindIndex(events, eventId);
        if found.Some? {
          var i := found.value;
          var event := events[i];
          events := events[i := event.(participants := event.participants + [userName])];
        }
        assert events == Board.WithParticipant(before.events, eventId, userName);
        SaveUserToStorage();
        SaveEventsToStorage();
      }
    }

    /** handleRemoveEvent for the id parsed from the button. */
    method HandleRemoveEvent(eventId: int)
      requires Valid()
      modifies this
      ensures Valid()
      ensures Current() == Board.Leave(old(Current()), eventId)
      ensures Board.Persisted(old(Current())) ==> Board.Persisted(Current())
      ensures activeEvents == old(activeEvents) && members == old(members)
      ensures trashCollected == old(trashCollected)
    {
      ghost var before := Current();
      if Board.Persisted(before) {
        Board.LeavePersists(before, eventId);
      }
      eventsJoined := Seqs.RemoveAll(eventsJoined, eventId);
      var found := FindIndex(events, eventId);
      if found.Some? {
        var i := found.value;
        var event := events[i];
        events := events[i := event.(participants := Seqs.RemoveAll(event.participants, userName))];
      }
      assert events == Board.WithoutParticipant(before.events, eventId, userName);
      SaveUserToStorage();
      SaveEventsToStorage();
    }
  }
}
