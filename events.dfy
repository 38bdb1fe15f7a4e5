/**
 * The event record of js/app.js and what is derived from one event: the
 * required-field check, the first-run demo set, the weather tag and icon,
 * lookup by id, and the join button of an event card.
 */
module Events {
  import opened Wrappers

  /**
   * One cleanup event as AppState.events holds it. The capacity is the
   * parsed value of the form's capacity text, None when that text was empty.
   */
  datatype Event = Event(
    id: int,
    name: string,
    date: string,
    time: string,
    location: string,
    description: string,
    capacity: Option<nat>,
    difficulty: string,
    participants: seq<string>,
    weather: string,
    createdBy: string,
    createdAt: string)

  /** The values handleFormSubmit reads from the create form. */
  datatype EventForm = EventForm(
    name: string,
    date: string,
    time: string,
    location: string,
    description: string,
    capacity: Option<nat>,
    difficulty: string)

  /** validateEvent: name, date, time and location are all non-empty. */
  predicate IsValidEvent(e: Event)
  {
    e.name != "" && e.date != "" && e.time != "" && e.location != ""
  }

  /**
   * The eventData record handleFormSubmit builds: the id from the clock, the
   * creator as the only participant and as createdBy.
   */
  function NewEvent(form: EventForm, id: int, user: string, weather: string, createdAt: string): Event
  {
    Event(id, form.name, form.date, form.time, form.location, form.description,
          form.capacity, form.difficulty, [user], weather, user, createdAt)
  }

  /** A new event passes validation exactly when the form's four required fields are filled in. */
  lemma NewEventValidIff(form: EventForm, id: int, user: string, weather: string, createdAt: string)
    ensures IsValidEvent(NewEvent(form, id, user, weather, createdAt))
        <==> form.name != "" && form.date != "" && form.time != "" && form.location != ""
  {
  }

  /** The three demo events renderDemoEvents installs on first run; createdAt is the clock's reading. */
  function DemoEvents(createdAt: string): seq<Event>
  {
    [ Event(1, "Sunset Beach Cleanup", "2025-12-15", "17:00", "Sunset Beach, CA",
            "Evening cleanup with a beautiful ocean view. Bring your crew!",
            Some(50), "easy", ["Alex", "Jordan", "Casey", "Morgan"], "sunny", "Alex", createdAt),
      Event(2, "Marina Bay Deep Clean", "2025-12-20", "09:00", "Marina Bay, CA",
            "Early morning cleanup. We'll tackle the rocky areas.",
            Some(75), "moderate", ["Taylor", "Riley", "Sam", "Chris", "Pat"], "cloudy", "Taylor", createdAt),
      Event(3, "Coral Reef Restoration", "2025-12-22", "14:00", "Coral Cove, HI",
            "Advanced cleanup focused on protecting marine life.",
            Some(30), "challenging", ["Jordan", "Phoenix"], "sunny", "Jordan", createdAt) ]
  }

  lemma DemoEventsFacts(createdAt: string)
    ensures var d := DemoEvents(createdAt);
      && |d| == 3
      && d[0].id == 1 && d[1].id == 2 && d[2].id == 3
      && d[0].capacity == Some(50) && d[1].capacity == Some(75) && d[2].capacity == Some(30)
      && |d[0].participants| == 4 && |d[1].participants| == 5 && |d[2].participants| == 2
      && (forall k :: 0 <= k < 3 ==> IsValidEvent(d[k]) && d[k].weather in Weathers && d[k].createdAt == createdAt)
  {
  }

  const Weathers: seq<string> := ["sunny", "cloudy", "rainy"]

  /** getRandomWeather, with Math.random()'s value passed in as roll. */
  function RandomWeather(roll: real): (w: string)
    requires 0.0 <= roll < 1.0
    ensures w in Weathers
  {
    Weathers[(roll * 3.0).Floor]
  }

  /** Every tag is drawn for some value of Math.random(). */
  lemma RandomWeatherCovers(k: nat)
    requires k < 3
    ensures RandomWeather(k as real / 3.0) == Weathers[k]
  {
    assert (k as real / 3.0 * 3.0) == k as real;
  }

  const SunnyIcon: string := "\U{2600}\U{FE0F}"
  const CloudyIcon: string := "\U{2601}\U{FE0F}"
  const RainyIcon: string := "\U{1F327}\U{FE0F}"
  const FallbackIcon: string := "\U{1F324}\U{FE0F}"

  /** getWeatherIcon: the icon of a known tag, the fallback icon for any other text. */
  function WeatherIcon(weather: string): (icon: string)
    ensures icon == FallbackIcon <==> weather !in Weathers
  {
    if weather == "sunny" then SunnyIcon
    else if weather == "cloudy" then CloudyIcon
    else if weather == "rainy" then RainyIcon
    else FallbackIcon
  }

  /** The three known tags get three different icons. */
  lemma WeatherIconsDistinct(i: nat, j: nat)
    requires i < j < 3
    ensures WeatherIcon(Weathers[i]) != WeatherIcon(Weathers[j])
  {
  }

  /** AppState.events.find(e => e.id === id), as the index of the first match. */
  function FindIndex(events: seq<Event>, id: int): (r: Option<nat>)
    ensures r.None? <==> forall k :: 0 <= k < |events| ==> events[k].id != id
    ensures r.Some? ==> r.value < |events| && events[r.value].id == id
    ensures r.Some? ==> forall k :: 0 <= k < r.value ==> events[k].id != id
  {
    if events == [] then None
    else if events[0].id == id then Some(0)
    else match FindIndex(events[1..], id)
      case None => None
      case Some(k) => Some(k + 1)
  }

  /** The first index holding id is the one FindIndex returns. */
  lemma FindIndexIsFirst(events: seq<Event>, id: int, i: nat)
    requires i < |events| && events[i].id == id
    requires forall k :: 0 <= k < i ==> events[k].id != id
    ensures FindIndex(events, id) == Some(i)
  {
    assert FindIndex(events, id).Some?;
  }

  /** Two lists with the same ids at every index find the same index. */
  lemma FindIndexSameIds(a: seq<Event>, b: seq<Event>, id: int)
    requires |a| == |b|
    requires forall k :: 0 <= k < |a| ==> a[k].id == b[k].id
    ensures FindIndex(a, id) == FindIndex(b, id)
  {
    var ra := FindIndex(a, id);
    if ra.Some? {
      FindIndexIsFirst(b, id, ra.value);
    }
  }

  /** isJoined in createEventCardHTML. */
  predicate IsJoined(eventsJoined: seq<int>, e: Event)
  {
    e.id in eventsJoined
  }

  /** isFull in createEventCardHTML: a capacity is set and the participants have reached it. */
  predicate IsFull(e: Event)
  {
    e.capacity.Some? && |e.participants| >= e.capacity.value
  }

  datatype Action = NoAction | JoinAction(eventId: int) | LeaveAction(eventId: int)

  /** The button of an event card: its text, the handler it is wired to, and whether it is disabled. */
  datatype CardButton = CardButton(caption: string, action: Action, disabled: bool)

  /** The join/leave/full button createEventCardHTML derives from isJoined and isFull. */
  function JoinButton(eventsJoined: seq<int>, e: Event): (b: CardButton)
    ensures b.action == NoAction <==> IsFull(e) && !IsJoined(eventsJoined, e)
    ensures b.disabled <==> b.action == NoAction
    ensures b.action == NoAction ==> b.caption == "Event Full"
    ensures IsJoined(eventsJoined, e) ==> b == CardButton("Leave Event", LeaveAction(e.id), false)
    ensures !IsFull(e) && !IsJoined(eventsJoined, e) ==> b == CardButton("Join Event", JoinAction(e.id), false)
  {
    var isJoined := IsJoined(eventsJoined, e);
    var isFull := IsFull(e);
    var buttonText := if isJoined then "Leave Event" else "Join Event";
    var buttonState := isFull && !isJoined;
    if isFull && !isJoined then CardButton("Event Full", NoAction, true)
    else CardButton(buttonText, if isJoined then LeaveAction(e.id) else JoinAction(e.id), buttonState)
  }
}
