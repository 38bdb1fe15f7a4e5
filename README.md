# ShoreSquad event board — a Dafny model

ShoreSquad is a client-side board of beach-cleanup events. Its state logic in
`js/app.js` keeps one in-memory `AppState`: the list of events (newest first),
the current user's display name and the ids of the events they joined, and a
few stats; every change to the events or to the user record is written to the
browser's `localStorage` under the keys `shoreSquadEvents`, `userName` and
`eventsJoined` (the stats are never stored).

This project models that state logic and proves what it does and what it does
not guarantee:

- `wrappers.dfy` — `Option`, used for an event's optional capacity and for lookups.
- `text.dfy` (module `Text`) — ASCII `toLowerCase`/`toUpperCase`, `capitalizeText`,
  and `String.prototype.includes` (`Contains`), proved equal to "occurs at some index".
- `seqs.dfy` (module `Seqs`) — order-preserving subsequences, and `RemoveAll`, the
  `filter(v => v !== x)` that leaving an event applies twice.
- `events.dfy` (module `Events`) — the event record, `validateEvent`, the record built
  by `handleFormSubmit`, the three demo events, `getRandomWeather`, `getWeatherIcon`,
  `find` by id, and the join/leave/full button of `createEventCardHTML`.
- `search.dfy` (module `Search`) — `filterEvents` as a function of the events, the
  search text and the weather filter.
- `storage.dfy` (module `Storage`) — `localStorage` as a map from key to the structured
  value its JSON text encodes, with the save and load helpers and their defaults.
- `board.dfy` (module `Board`) — each handler as a transition on a value `State`
  (events, name, joined ids, store), and the lemmas about them.
- `app_state.dfy` (module `App`) — `AppState` as a class whose fields the handlers
  update in place. The load, seed, start-up and handler methods are specified by the
  matching `Board` transition on `Current()` and keep the store equal to the session;
  the two save helpers by `Storage.SaveEvents` and `Storage.SaveUser` on `store`;
  `UpdateStats` by `Board.MemberCount` on the stats fields. `Valid()` keeps the display
  name non-empty, which join and leave need to keep the store equal to the session.

Inputs the code reads from the device are parameters: the form's fields, `Date.now()`
(the new event's id), `new Date().toISOString()` (`createdAt`) and `Math.random()`
(`roll`, a real in [0, 1)).

## What the code does not guarantee

A board like this one is expected to refuse a join on a full event or on an unknown
id, to list each participant once, and to keep `eventsJoined` equal to the set of
events whose participants list the user. The code does none of this, and the model
follows the code:

- `handleJoinEvent` has no capacity check; capacity only turns the card's button into a
  disabled "Event Full" button (`Board.JoinIgnoresCapacity`, `Events.JoinButton`).
- Join records the id in `eventsJoined` even when no event has it (`Board.JoinRecordsUnknownId`).
- Create lists the creator as a participant but does not add the id to `eventsJoined`,
  so the creator is offered "Join" and joining lists them twice
  (`Board.CreatorRejoinDuplicates`); with a capacity of 1 the creator's own event
  shows "Event Full" and offers no Leave.
- `validateEvent` checks only that name, date, time and location are non-empty; a date in
  the past is only discouraged by the date input's `min` attribute, which is UI.
- Capacity is the form's text, or `null` when empty. The model takes its parsed value as
  `Option<nat>`. A text "0" is truthy in JavaScript, so `Some(0)` is full, as `IsFull` says.

## Model

| member | source | states |
|---|---|---|
| `Text.Lower` | js/app.js:333-339 | lower-casing keeps the length and lowers each character in place |
| `Text.LowerIdempotent` | js/app.js:333-339 | lowering the already lowered search term changes nothing |
| `Text.Capitalize` | js/app.js:374-376 | capitalizeText keeps the length |
| `Text.CapitalizeOnlyChangesCase` | js/app.js:374-376 | only the first character's case changes; the rest is kept; capitalizing twice is capitalizing once |
| `Text.Contains` | js/app.js:338-339 | no contract; `ContainsIff` and `ContainsEmpty` state what `includes` means |
| `Text.ContainsIff` | js/app.js:338-339 | `includes` holds exactly when the term occurs as a slice at some index, both directions |
| `Text.ContainsEmpty` | js/app.js:338-339 | every text includes the empty term |
| `Seqs.RemoveAll` | js/app.js:315 | the filtered list no longer holds the removed value and is no longer than before |
| `Seqs.RemoveAllCounts` | js/app.js:319 | every other value keeps its number of occurrences; the removed one has none |
| `Seqs.RemoveAllSubsequence` | js/app.js:315-319 | the remaining elements keep their order |
| `Seqs.RemoveAllAbsent` | js/app.js:315-319 | removing a value that is not there returns the same sequence |
| `Seqs.RemoveAllAppend` | js/app.js:315-319 | removing from a list with one value appended is removing from the list, then keeping that value unless it is the removed one |
| `Events.IsValidEvent` | js/app.js:158-160 | no contract; `NewEventValidIff` and `SubmitRejected` state it |
| `Events.NewEvent` | js/app.js:124-137 | no contract; `NewEventValidIff` and `SubmitPrepends` state the record it builds |
| `Events.NewEventValidIff` | js/app.js:158-160 | the new event passes validateEvent exactly when the form's name, date, time and location are non-empty |
| `Events.DemoEvents` | js/app.js:172-215 | no contract; `DemoEventsFacts` and `Search.DemoBay` state it |
| `Events.DemoEventsFacts` | js/app.js:172-215 | three demo events with ids 1, 2, 3, capacities 50, 75, 30, and 4, 5, 2 participants, all valid, with known weather tags |
| `Events.RandomWeather` | js/app.js:378-381 | the tag is one of sunny, cloudy, rainy |
| `Events.RandomWeatherCovers` | js/app.js:378-381 | each of the three tags is drawn for some random value |
| `Events.WeatherIcon` | js/app.js:383-390 | the fallback icon is returned exactly for a tag other than the three known ones |
| `Events.WeatherIconsDistinct` | js/app.js:384-388 | the three known tags have three different icons |
| `Events.FindIndex` | js/app.js:301 | `find` by id: None exactly when no event has the id, otherwise the first index holding it |
| `Events.FindIndexIsFirst` | js/app.js:301 | the first index holding the id is the one found |
| `Events.FindIndexSameIds` | js/app.js:317 | lists with the same ids at each index find the same event |
| `Events.IsJoined` | js/app.js:250 | no contract; `JoinButton` states how it chooses the button |
| `Events.IsFull` | js/app.js:251 | no contract; `JoinButton` and `Board.JoinIgnoresCapacity` state it |
| `Events.JoinButton` | js/app.js:250-257 | no action exactly when full and not joined, and then the caption is "Event Full"; disabled exactly then; joined gives an enabled Leave; not full and not joined gives an enabled Join |
| `Search.Kept` | js/app.js:337-342 | no contract; `Keep` and `FilterEvents` state the filter it decides |
| `Search.Keep` | js/app.js:336-343 | the filter keeps every copy of a passing event and none of a failing one; membership is exactly "in the list and passes" |
| `Search.KeepSubsequence` | js/app.js:336-343 | the filtered list is an order-preserving subsequence |
| `Search.KeepEverything` | js/app.js:336-343 | when every event passes, the filter returns the list unchanged |
| `Search.FilterEvents` | js/app.js:332-343 | the visible events are an order-preserving subsequence holding exactly the events whose lower-cased name or location includes the lower-cased term and whose weather equals a non-empty filter |
| `Search.FilterEmptyQuery` | js/app.js:332-343 | an empty search with no weather filter shows every event in order |
| `Search.FilterWeatherExact` | js/app.js:340 | with a weather filter set, every visible event has exactly that tag |
| `Search.FilterIgnoresCase` | js/app.js:333 | search texts equal up to case show the same events |
| `Search.FilterBay` | js/app.js:336-343 | searching "bay" over three events keeps only the one at "Marina Bay, CA" when the others have no letter y |
| `Search.DemoBayPremises` | js/app.js:172-215 | the demo set is three events whose first and third have no letter y in name or location, and whose second is at "Marina Bay, CA" |
| `Search.DemoBay` | js/app.js:332-343 | searching "bay" over the demo set shows only Marina Bay Deep Clean |
| `Storage.LoadEvents` | js/app.js:438-439 | no contract; the round trip of `SaveEvents` and `Board.ReloadRestores` state it |
| `Storage.LoadUserName` | js/app.js:14 | the loaded name is never empty and is "Crew Member" when nothing is stored |
| `Storage.LoadJoined` | js/app.js:15 | the joined ids load as [] when nothing is stored |
| `Storage.SaveEvents` | js/app.js:433-441 | the saved list loads back as written, and the user record is unaffected |
| `Storage.SaveUser` | js/app.js:444-447 | the ids load back as written; the name too, unless empty, which loads as the default; the list is unaffected |
| `Storage.SaveUserEventsTwice` | js/app.js:444-447 | saving the same records again leaves the store as it was |
| `Board.Boot` | js/app.js:11-22 | the initial state has no events, the store's user record, and a non-empty name |
| `Board.LoadEventsInto` | js/app.js:437-442 | the name, the joined ids and the store are kept; nothing changes when no list is stored; otherwise the events become the stored list |
| `Board.Seed` | js/app.js:217-221 | the list is never empty afterwards and the user record is kept; `SeedFirstRunOnly` and `SeedPersists` state the rest |
| `Board.Initialize` | js/app.js:53-57 | after start-up the list is never empty and the user record is kept; `InitializePersists` and `ReloadRestores` state the rest |
| `Board.Submit` | js/app.js:124-147 | the user record is kept and the state is either unchanged or has one more event in front of the old list; `SubmitRejected`, `SubmitPrepends` and `SubmitPersists` state which |
| `Board.Join` | js/app.js:296-307 | the id is in eventsJoined afterwards, the name and the number of events are kept; `JoinEffect`, `JoinIdempotent`, `JoinRecordsUnknownId` and `JoinPersists` state the rest |
| `Board.Leave` | js/app.js:313-323 | the id is not in eventsJoined afterwards, the name and the number of events are kept; `LeaveEffect`, `LeaveIdempotent`, `LeaveUnknownId` and `LeavePersists` state the rest |
| `Board.MemberCount` | js/app.js:354 | 237 + Math.floor(n * 0.5) equals 237 + n / 2 in integer division |
| `Board.WithParticipant` | js/app.js:301-304 | pushing a participant keeps the number of events and every id |
| `Board.WithoutParticipant` | js/app.js:317-320 | filtering a participant keeps the number of events and every id |
| `Board.SubmitRejected` | js/app.js:139-143 | a draft missing name, date, time or location leaves state and store unchanged |
| `Board.SubmitPrepends` | js/app.js:124-147 | a complete draft adds one event at index 0 with the form's fields, the creator as only participant and author, the older events after it in order, and saves the list |
| `Board.SeedFirstRunOnly` | js/app.js:217-221 | on an empty list the demo set is installed and the store becomes the old store with the demo set saved; a non-empty list leaves the whole state as it was; the name and joined ids are always kept, the result is never empty, and seeding again changes nothing |
| `Board.JoinIdempotent` | js/app.js:298 | joining a joined id changes nothing, so joining twice is joining once |
| `Board.JoinEffect` | js/app.js:296-307 | the id is appended, the name is appended to the first event with that id, every other event and field is kept, and the store is the old one with the name, the ids and the list written |
| `Board.JoinRecordsUnknownId` | js/app.js:298-304 | an id no event has is still recorded, with the events unchanged |
| `Board.JoinIgnoresCapacity` | js/app.js:298-304 | joining a full event takes its participants past the capacity |
| `Board.CreatorRejoinDuplicates` | js/app.js:298-303 | after creating, the creator is a participant but not joined, the card offers Join (or Event Full), and joining lists the creator twice |
| `Board.JoinDemoScenario` | js/app.js:296-311 | a new user joining demo event 3 makes 3 participants, and repeating the join changes nothing |
| `Board.LeaveEffect` | js/app.js:313-323 | every occurrence of the id and of the name is removed, the rest keep their order, other events are kept, and the store is the old one with the name, the ids and the list written |
| `Board.LeaveUnknownId` | js/app.js:315-320 | leaving an id no event has only drops it from eventsJoined |
| `Board.LeaveNotJoined` | js/app.js:315-320 | leaving what one is not part of leaves both sequences as they were |
| `Board.WithoutParticipantTwice` | js/app.js:317-320 | removing the name from the same event twice is removing it once |
| `Board.WithoutAfterWith` | js/app.js:301-320 | removing a just-appended name that was not listed before restores the events |
| `Board.LeaveIdempotent` | js/app.js:313-323 | leaving twice is leaving once, store included |
| `Board.JoinThenLeave` | js/app.js:296-323 | a join then a leave restores the events and eventsJoined when the name was not listed before |
| `Board.InitializePersists` | js/app.js:53-57 | after start-up the list is non-empty and the store holds the whole session |
| `Board.SubmitPersists` | js/app.js:146-147 | creating keeps the store equal to the session |
| `Board.SeedPersists` | js/app.js:218-221 | seeding keeps the store equal to the session |
| `Board.JoinPersists` | js/app.js:306-307 | joining keeps the store equal to the session |
| `Board.LeavePersists` | js/app.js:322-323 | leaving keeps the store equal to the session |
| `Board.ReloadRestores` | js/app.js:437-447 | starting up from the saved store gives back the same session |
| `Board.EventCountMonotone` | js/app.js:146 | no handler removes an event; join and leave keep the count |
| `App.AppState.constructor` | js/app.js:11-22 | the initial AppState is Boot of the store, with stats 0, 237 and 1540 |
| `App.AppState.SaveEventsToStorage` | js/app.js:433-435 | the store gets the event list under its key |
| `App.AppState.LoadEventsFromStorage` | js/app.js:437-442 | the stored list replaces the events when the key is present |
| `App.AppState.SaveUserToStorage` | js/app.js:444-447 | the store gets the name and the joined ids under their keys |
| `App.AppState.UpdateStats` | js/app.js:352-354 | activeEvents is the number of events and members is 237 + joined / 2 |
| `App.AppState.RenderDemoEvents` | js/app.js:171-221 | the state becomes Seed of the old state, and a store equal to the session stays so |
| `App.AppState.Initialize` | js/app.js:53-57 | load, seed and stats: the state becomes Initialize of the old state, and a store equal to the session stays so |
| `App.AppState.HandleFormSubmit` | js/app.js:120-148 | the state becomes Submit of the old state; a store equal to the session stays so; the result is true exactly when the four required fields are filled; stats are updated only then |
| `App.AppState.HandleJoinEvent` | js/app.js:296-307 | the state becomes Join of the old state; a store equal to the session stays so; stats are not updated |
| `App.AppState.HandleRemoveEvent` | js/app.js:313-323 | the state becomes Leave of the old state; a store equal to the session stays so; stats are not updated |

## Left out

- DOM and UI wiring: section navigation, the mobile menu, listener setup, `renderEvents`,
  the card's HTML apart from the button derivation, `showAlert`, `escapeHTML` and
  `formatDate` (locale formatting through `Date`), and `setMinDateToToday`.
- `filterEvents` renders its result; the model returns the visible list instead.
- Timers: `debounce` and the `setTimeout` calls only delay work.
- Lazy image loading and service-worker registration are browser features with no state here.
- Storage never fails: `getItem`/`setItem` throwing (quota exceeded, storage blocked) is
  not modelled. In the source such a throw leaves the in-memory update of create, join or
  leave done and the store behind, so the `*Persists` lemmas and the class's persistence
  ensures assume every write succeeds.
- JSON text: the store holds the structured values. A stored text that is not valid JSON
  makes `JSON.parse` throw in the source; the model reads such a key as absent.
- Case mapping is ASCII only; JavaScript's full Unicode mapping (where one character can
  become two) and UTF-16 code units in `includes` are not modelled.
- `Events.WeatherIcon`: keys inherited from `Object.prototype` (such as "toString") return a
  non-string value in the source; the model returns the fallback icon for them.
- `Board.MemberCount`: `Math.floor(n * 0.5)` is computed on exact reals, which agrees with
  double arithmetic for every list length below 2^53.
- Capacity text that is negative, fractional or not a number is not modelled (`Option<nat>`).
  In `participants.length >= capacity` the number on the left makes JavaScript convert the
  text to a number and compare numerically, which `IsFull` does on the parsed value.
- `Events.DemoEvents`: the source reads the clock once per demo event
  (`new Date().toISOString()` three times); the model takes one reading for all three,
  so `DemoEventsFacts` stating that the three `createdAt` fields are equal holds only in the model.
- `parseInt(e.target.dataset.id)` is modelled as the event's integer id passed in directly.
- Events are values: the source mutates the event object that `find` returns, which only
  `AppState.events` refers to, so updating the list element has the same effect.
