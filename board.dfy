/**
 * The state transitions of the event board on a value of its state: the
 * AppState initialiser, initializeApp (load, seed), the state effect of
 * handleFormSubmit, handleJoinEvent, handleRemoveEvent, and the member
 * count of updateStats. The class App.AppState performs the same steps in
 * place and is specified by these functions.
 */
module Board {
  import opened Wrappers
  import opened Seqs
  import opened Events
  import opened Storage

  /** AppState.events, AppState.currentUser and the contents of localStorage. */
  datatype State = State(events: seq<Event>, userName: string, eventsJoined: seq<int>, store: Store)

  const BaseMembers: int := 237
  const TrashCollected: int := 1540

  /** The AppState initialiser: no events yet, the user record read back from the store. */
  function Boot(store: Store): (s: State)
    ensures s.events == [] && s.store == store && s.userName != ""
    ensures UserNameKey !in store ==> s.userName == DefaultUserName
    ensures JoinedKey !in store ==> s.eventsJoined == []
  {
    State([], LoadUserName(store), LoadJoined(store), store)
  }

  /** loadEventsFromStorage: the stored list replaces the events when the key is present. */
  function LoadEventsInto(s: State): (r: State)
    ensures r.userName == s.userName && r.eventsJoined == s.eventsJoined && r.store == s.store
    ensures LoadEvents(s.store).None? ==> r == s
    ensures LoadEvents(s.store).Some? ==> LoadEvents(r.store) == Some(r.events)
  {
    match LoadEvents(s.store)
    case Some(events) => s.(events := events)
    case None => s
  }

  /** The state step of renderDemoEvents: install and save the demo set only when there is no event. */
  function Seed(s: State, createdAt: string): (r: State)
    ensures |r.events| > 0
    ensures r.userName == s.userName && r.eventsJoined == s.eventsJoined
  {
    if |s.events| == 0 then
      var demo := DemoEvents(createdAt);
      s.(events := demo, store := SaveEvents(s.store, demo))
    else s
  }

  /** initializeApp, as far as it touches the state: load the events, then seed. */
  function Initialize(s: State, createdAt: string): (r: State)
    ensures |r.events| > 0
    ensures r.userName == s.userName && r.eventsJoined == s.eventsJoined
  {
    Seed(LoadEventsInto(s), createdAt)
  }

  /** The state effect of handleFormSubmit: a valid new event goes first and the list is saved. */
  function Submit(s: State, form: EventForm, id: int, weather: string, createdAt: string): (r: State)
    ensures r.userName == s.userName && r.eventsJoined == s.eventsJoined
    ensures r == s || (|r.events| == |s.events| + 1 && r.events[1..] == s.events)
  {
    var e := NewEvent(form, id, s.userName, weather, createdAt);
    if IsValidEvent(e) then
      var events := [e] + s.events;
      s.(events := events, store := SaveEvents(s.store, events))
    else s
  }

  /** The first event with the id gains the name at the end of its participants. */
  function WithParticipant(events: seq<Event>, id: int, name: string): (r: seq<Event>)
    ensures |r| == |events|
    ensures forall k :: 0 <= k < |r| ==> r[k].id == events[k].id
  {
    match FindIndex(events, id)
    case None => events
    case Some(i) => events[i := events[i].(participants := events[i].participants + [name])]
  }

  /** The first event with the id loses every occurrence of the name from its participants. */
  function WithoutParticipant(events: seq<Event>, id: int, name: string): (r: seq<Event>)
    ensures |r| == |events|
    ensures forall k :: 0 <= k < |r| ==> r[k].id == events[k].id
  {
    match FindIndex(events, id)
    case None => events
    case Some(i) => events[i := events[i].(participants := RemoveAll(events[i].participants, name))]
  }

  /** handleJoinEvent: nothing happens when the id is already joined. */
  function Join(s: State, id: int): (r: State)
    ensures id in r.eventsJoined
    ensures r.userName == s.userName && |r.events| == |s.events|
  {
    if id in s.eventsJoined then s
    else
      var joined := s.eventsJoined + [id];
      var events := WithParticipant(s.events, id, s.userName);
      State(events, s.userName, joined, SaveEvents(SaveUser(s.store, s.userName, joined), events))
  }

  /** handleRemoveEvent: it runs the same whether or not the id is joined. */
  function Leave(s: State, id: int): (r: State)
    ensures id !in r.eventsJoined
    ensures r.userName == s.userName && |r.events| == |s.events|
  {
    var joined := RemoveAll(s.eventsJoined, id);
    var events := WithoutParticipant(s.events, id, s.userName);
    State(events, s.userName, joined, SaveEvents(SaveUser(s.store, s.userName, joined), events))
  }

  /** stats.members: 237 + Math.floor(joinedCount * 0.5), which is integer halving. */
  function MemberCount(joinedCount: nat): (r: int)
    ensures r == BaseMembers + joinedCount / 2
  {
    var q, m := joinedCount / 2, joinedCount % 2;
    assert joinedCount as real * 0.5 == q as real + m as real * 0.5;
    BaseMembers + (joinedCount as real * 0.5).Floor
  }

  // ---------------------------------------------------------------- create

  /** A draft missing any of name, date, time or location leaves the state, the store included, as it was. */
  lemma SubmitRejected(s: State, form: EventForm, id: int, weather: string, createdAt: string)
    requires form.name == "" || form.date == "" || form.time == "" || form.location == ""
    ensures Submit(s, form, id, weather, createdAt) == s
  {
  }

  /** A complete draft is prepended, with the creator as its only participant and as its author. */
  lemma SubmitPrepends(s: State, form: EventForm, id: int, weather: string, createdAt: string)
    requires form.name != "" && form.date != "" && form.time != "" && form.location != ""
    ensures var r := Submit(s, form, id, weather, createdAt);
      && |r.events| == |s.events| + 1
      && r.events[1..] == s.events
      && var e := r.events[0];
      && e.id == id && e.name == form.name && e.date == form.date && e.time == form.time
      && e.location == form.location && e.description == form.description
      && e.capacity == form.capacity && e.difficulty == form.difficulty
      && e.participants == [s.userName] && e.createdBy == s.userName
      && e.weather == weather && e.createdAt == createdAt
      && r.userName == s.userName && r.eventsJoined == s.eventsJoined
      && LoadEvents(r.store) == Some(r.events)
      && r.store == SaveEvents(s.store, r.events)
  {
    var r := Submit(s, form, id, weather, createdAt);
    assert r.events == [r.events[0]] + s.events;
  }

  // ---------------------------------------------------------------- seed

  /** Seeding installs the demo set exactly on an empty list, and a second seeding changes nothing. */
  lemma SeedFirstRunOnly(s: State, createdAt: string, later: string)
    ensures |s.events| == 0 ==> (Seed(s, createdAt).events == DemoEvents(createdAt)
                                 && LoadEvents(Seed(s, createdAt).store) == Some(DemoEvents(createdAt)))
    ensures |s.events| > 0 ==> Seed(s, createdAt) == s
    ensures |s.events| == 0 ==> Seed(s, createdAt).store == SaveEvents(s.store, DemoEvents(createdAt))
    ensures Seed(s, createdAt).userName == s.userName && Seed(s, createdAt).eventsJoined == s.eventsJoined
    ensures |Seed(s, createdAt).events| > 0
    ensures Seed(Seed(s, createdAt), later) == Seed(s, createdAt)
  {
    DemoEventsFacts(createdAt);
  }

  // ---------------------------------------------------------------- join

  /** Joining an id already in eventsJoined changes nothing, so joining twice is joining once. */
  lemma JoinIdempotent(s: State, id: int)
    ensures id in s.eventsJoined ==> Join(s, id) == s
    ensures Join(Join(s, id), id) == Join(s, id)
  {
  }

  /**
   * Joining the event at index i (the first with that id): the id is appended
   * to eventsJoined, the name to that event's participants, every other event
   * and every other field of that event stays as it was, and both records are saved.
   */
  lemma JoinEffect(s: State, id: int, i: nat)
    requires id !in s.eventsJoined
    requires i < |s.events| && s.events[i].id == id
    requires forall k :: 0 <= k < i ==> s.events[k].id != id
    ensures var r := Join(s, id);
      && r.eventsJoined == s.eventsJoined + [id]
      && r.userName == s.userName
      && |r.events| == |s.events|
      && r.events[i] == s.events[i].(participants := s.events[i].participants + [s.userName])
      && (forall k :: 0 <= k < |s.events| && k != i ==> r.events[k] == s.events[k])
      && LoadEvents(r.store) == Some(r.events)
      && LoadJoined(r.store) == r.eventsJoined
      && r.store == SaveEvents(SaveUser(s.store, s.userName, r.eventsJoined), r.events)
  {
    FindIndexIsFirst(s.events, id, i);
  }

  /** The code records an id that no event has: eventsJoined grows while every event stays as it was. */
  lemma JoinRecordsUnknownId(s: State, id: int)
    requires id !in s.eventsJoined
    requires forall k :: 0 <= k < |s.events| ==> s.events[k].id != id
    ensures Join(s, id).eventsJoined == s.eventsJoined + [id]
    ensures Join(s, id).events == s.events
  {
  }

  /** The code has no capacity check: joining a full event takes it past its capacity. */
  lemma JoinIgnoresCapacity(s: State, id: int, i: nat)
    requires id !in s.eventsJoined
    requires i < |s.events| && s.events[i].id == id
    requires forall k :: 0 <= k < i ==> s.events[k].id != id
    requires IsFull(s.events[i])
    ensures |Join(s, id).events[i].participants| > s.events[i].capacity.value
  {
    JoinEffect(s, id, i);
  }

  /**
   * The creator is a participant of a new event but its id is not in
   * eventsJoined: the card offers Join (or Event Full when the capacity is
   * already reached, so the creator cannot leave), and joining lists the creator twice.
   */
  lemma CreatorRejoinDuplicates(s: State, form: EventForm, id: int, weather: string, createdAt: string)
    requires form.name != "" && form.date != "" && form.time != "" && form.location != ""
    requires id !in s.eventsJoined
    ensures var c := Submit(s, form, id, weather, createdAt);
      && s.userName in c.events[0].participants
      && !IsJoined(c.eventsJoined, c.events[0])
      && JoinButton(c.eventsJoined, c.events[0]).action == (if IsFull(c.events[0]) then NoAction else JoinAction(id))
      && Join(c, id).events[0].participants == [s.userName, s.userName]
  {
    SubmitPrepends(s, form, id, weather, createdAt);
    var c := Submit(s, form, id, weather, createdAt);
    JoinEffect(c, id, 0);
  }

  /** The third demo event with two participants takes a new name and then ignores a repeated join. */
  lemma JoinDemoScenario(createdAt: string, joined: seq<int>, store: Store)
    requires 3 !in joined
    ensures var s := State(DemoEvents(createdAt), "NewUser", joined, store);
      && |Join(s, 3).events[2].participants| == 3
      && Join(Join(s, 3), 3) == Join(s, 3)
  {
    var s := State(DemoEvents(createdAt), "NewUser", joined, store);
    DemoEventsFacts(createdAt);
    JoinEffect(s, 3, 2);
  }

  // ---------------------------------------------------------------- leave

  /**
   * Leaving the event at index i (the first with that id): every occurrence of
   * the id leaves eventsJoined and every occurrence of the name leaves that
   * event's participants, the rest keep their order, the other events stay.
   */
  lemma LeaveEffect(s: State, id: int, i: nat)
    requires i < |s.events| && s.events[i].id == id
    requires forall k :: 0 <= k < i ==> s.events[k].id != id
    ensures var r := Leave(s, id);
      && r.eventsJoined == RemoveAll(s.eventsJoined, id)
      && id !in r.eventsJoined
      && IsSubsequence(r.eventsJoined, s.eventsJoined)
      && r.userName == s.userName
      && |r.events| == |s.events|
      && r.events[i] == s.events[i].(participants := RemoveAll(s.events[i].participants, s.userName))
      && s.userName !in r.events[i].participants
      && IsSubsequence(r.events[i].participants, s.events[i].participants)
      && (forall k :: 0 <= k < |s.events| && k != i ==> r.events[k] == s.events[k])
      && LoadEvents(r.store) == Some(r.events)
      && LoadJoined(r.store) == r.eventsJoined
      && r.store == SaveEvents(SaveUser(s.store, s.userName, r.eventsJoined), r.events)
  {
    FindIndexIsFirst(s.events, id, i);
    RemoveAllSubsequence(s.eventsJoined, id);
    RemoveAllSubsequence(s.events[i].participants, s.userName);
  }

  /** Leaving an id that no event has only drops it from eventsJoined. */
  lemma LeaveUnknownId(s: State, id: int)
    requires forall k :: 0 <= k < |s.events| ==> s.events[k].id != id
    ensures Leave(s, id).events == s.events
    ensures Leave(s, id).eventsJoined == RemoveAll(s.eventsJoined, id)
  {
  }

  /** Leaving an event one is not part of leaves both sequences equal to before. */
  lemma LeaveNotJoined(s: State, id: int)
    requires id !in s.eventsJoined
    requires forall k :: 0 <= k < |s.events| && s.events[k].id == id ==> s.userName !in s.events[k].participants
    ensures Leave(s, id).eventsJoined == s.eventsJoined
    ensures Leave(s, id).events == s.events
  {
    RemoveAllAbsent(s.eventsJoined, id);
    match FindIndex(s.events, id)
    case None =>
    case Some(i) =>
      RemoveAllAbsent(s.events[i].participants, s.userName);
      assert s.events[i].(participants := s.events[i].participants) == s.events[i];
  }

  /** Removing the name from the same event a second time changes nothing. */
  lemma WithoutParticipantTwice(events: seq<Event>, id: int, name: string)
    ensures var once := WithoutParticipant(events, id, name);
      WithoutParticipant(once, id, name) == once
  {
    var once := WithoutParticipant(events, id, name);
    FindIndexSameIds(once, events, id);
    match FindIndex(events, id)
    case None =>
    case Some(i) =>
      RemoveAllAbsent(once[i].participants, name);
      assert once[i].(participants := once[i].participants) == once[i];
      assert once[i := once[i]] == once;
  }

  /** Removing a name just appended, and listed nowhere else in that event, restores the list. */
  lemma WithoutAfterWith(events: seq<Event>, id: int, name: string)
    requires forall k :: 0 <= k < |events| && events[k].id == id ==> name !in events[k].participants
    ensures WithoutParticipant(WithParticipant(events, id, name), id, name) == events
  {
    var joined := WithParticipant(events, id, name);
    FindIndexSameIds(joined, events, id);
    match FindIndex(events, id)
    case None =>
    case Some(i) =>
      var p := events[i].participants;
      assert joined[i].participants == p + [name];
      assert RemoveAll(p + [name], name) == p by {
        RemoveAllAppend(p, name, name);
        RemoveAllAbsent(p, name);
        assert p + [] == p;
      }
      var restored := joined[i].(participants := p);
      assert restored == events[i];
      assert WithoutParticipant(joined, id, name) == joined[i := restored];
      assert joined[i := restored] == events;
  }

  /** Leaving twice is leaving once. */
  lemma LeaveIdempotent(s: State, id: int)
    ensures Leave(Leave(s, id), id) == Leave(s, id)
  {
    var r := Leave(s, id);
    RemoveAllAbsent(r.eventsJoined, id);
    WithoutParticipantTwice(s.events, id, s.userName);
    SaveUserEventsTwice(s.store, s.userName, r.eventsJoined, r.events);
  }

  /** A join followed by a leave restores the events and eventsJoined when the name was not listed before. */
  lemma JoinThenLeave(s: State, id: int)
    requires id !in s.eventsJoined
    requires forall k :: 0 <= k < |s.events| && s.events[k].id == id ==> s.userName !in s.events[k].participants
    ensures Leave(Join(s, id), id).events == s.events
    ensures Leave(Join(s, id), id).eventsJoined == s.eventsJoined
  {
    RemoveAllAppend(s.eventsJoined, id, id);
    RemoveAllAbsent(s.eventsJoined, id);
    WithoutAfterWith(s.events, id, s.userName);
  }

  // ---------------------------------------------------------------- persistence

  /** The store holds exactly the session: what a reload would read back. */
  ghost predicate Persisted(s: State)
  {
    LoadEvents(s.store) == Some(s.events)
    && LoadUserName(s.store) == s.userName
    && LoadJoined(s.store) == s.eventsJoined
  }

  /** initializeApp leaves a non-empty list that the store holds, together with the user record. */
  lemma InitializePersists(store: Store, createdAt: string)
    ensures Persisted(Initialize(Boot(store), createdAt))
    ensures |Initialize(Boot(store), createdAt).events| > 0
  {
    DemoEventsFacts(createdAt);
  }

  /** Creating an event saves the list it changed. */
  lemma SubmitPersists(s: State, form: EventForm, id: int, weather: string, createdAt: string)
    requires Persisted(s)
    ensures Persisted(Submit(s, form, id, weather, createdAt))
  {
  }

  /** Seeding saves the list it installs. */
  lemma SeedPersists(s: State, createdAt: string)
    requires Persisted(s)
    ensures Persisted(Seed(s, createdAt))
  {
  }

  /** A join saves the user record and the list, so the store keeps holding the session. */
  lemma JoinPersists(s: State, id: int)
    requires Persisted(s) && s.userName != ""
    ensures Persisted(Join(s, id))
  {
  }

  /** A leave saves the user record and the list, so the store keeps holding the session. */
  lemma LeavePersists(s: State, id: int)
    requires Persisted(s) && s.userName != ""
    ensures Persisted(Leave(s, id))
  {
  }

  /** After initializeApp, reloading the page from the store gives back the same session. */
  lemma ReloadRestores(s: State, createdAt: string)
    requires Persisted(s) && |s.events| > 0
    ensures Initialize(Boot(s.store), createdAt) == s
  {
  }

  /** The event count only grows: no handler removes an event. */
  lemma EventCountMonotone(s: State, form: EventForm, id: int, weather: string, createdAt: string)
    ensures |Submit(s, form, id, weather, createdAt).events| >= |s.events|
    ensures |Seed(s, createdAt).events| >= |s.events|
    ensures |Join(s, id).events| == |s.events|
    ensures |Leave(s, id).events| == |s.events|
  {
  }
}
