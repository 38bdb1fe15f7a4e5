/**
 * filterEvents: the view of AppState.events that the search box and the
 * weather select leave visible. It reads the events and changes nothing.
 */
module Search {
  import opened Text
  import opened Seqs
  import opened Events

  /**
   * The callback filterEvents gives to Array.prototype.filter. searchTerm is the
   * already lower-cased search text; an empty weather filter lets every tag through.
   */
  predicate Kept(e: Event, searchTerm: string, weatherFilter: string)
  {
    (Contains(Lower(e.name), searchTerm) || Contains(Lower(e.location), searchTerm))
    && (weatherFilter == "" || e.weather == weatherFilter)
  }

  /** Array.prototype.filter with Kept: each event keeps all its copies if kept, none otherwise. */
  function Keep(events: seq<Event>, searchTerm: string, weatherFilter: string): (r: seq<Event>)
    ensures |r| <= |events|
    ensures forall e :: multiset(r)[e] == if Kept(e, searchTerm, weatherFilter) then multiset(events)[e] else 0
    ensures forall e :: e in r <==> e in events && Kept(e, searchTerm, weatherFilter)
  {
    if events == [] then []
    else
      assert events == [events[0]] + events[1..];
      var rest := Keep(events[1..], searchTerm, weatherFilter);
      if Kept(events[0], searchTerm, weatherFilter) then [events[0]] + rest else rest
  }

  lemma {:induction false} KeepSubsequence(events: seq<Event>, searchTerm: string, weatherFilter: string)
    ensures IsSubsequence(Keep(events, searchTerm, weatherFilter), events)
    decreases |events|
  {
    if events != [] {
      var rest := Keep(events[1..], searchTerm, weatherFilter);
      KeepSubsequence(events[1..], searchTerm, weatherFilter);
      if Kept(events[0], searchTerm, weatherFilter) {
        assert ([events[0]] + rest)[1..] == rest;
      }
    }
  }

  /** When every event passes the callback, the filter returns the list unchanged. */
  lemma {:induction false} KeepEverything(events: seq<Event>, searchTerm: string, weatherFilter: string)
    requires forall e :: e in events ==> Kept(e, searchTerm, weatherFilter)
    ensures Keep(events, searchTerm, weatherFilter) == events
    decreases |events|
  {
    if events != [] {
      assert events[0] in events;
      assert forall e :: e in events[1..] ==> e in events;
      KeepEverything(events[1..], searchTerm, weatherFilter);
      assert events == [events[0]] + events[1..];
    }
  }

  /** Whether an event is visible for the raw search text: both sides lower-cased, as filterEvents does. */
  predicate Matches(e: Event, searchInput: string, weatherFilter: string)
  {
    Kept(e, Lower(searchInput), weatherFilter)
  }

  /**
   * filterEvents for the search box's text and the weather select's value:
   * an order-preserving subsequence holding exactly the matching events.
   */
  function FilterEvents(events: seq<Event>, searchInput: string, weatherFilter: string): (r: seq<Event>)
    ensures IsSubsequence(r, events)
    ensures forall e :: e in r <==> e in events && Matches(e, searchInput, weatherFilter)
    ensures forall e :: multiset(r)[e] == if Matches(e, searchInput, weatherFilter) then multiset(events)[e] else 0
  {
    KeepSubsequence(events, Lower(searchInput), weatherFilter);
    Keep(events, Lower(searchInput), weatherFilter)
  }

  /** An empty search with no weather filter shows every event, in order. */
  lemma FilterEmptyQuery(events: seq<Event>)
    ensures FilterEvents(events, "", "") == events
  {
    forall e | e in events
      ensures Kept(e, Lower(""), "")
    {
      ContainsEmpty(Lower(e.name));
    }
    KeepEverything(events, Lower(""), "");
  }

  /** With a weather filter set, every visible event carries exactly that tag. */
  lemma FilterWeatherExact(events: seq<Event>, searchInput: string, weatherFilter: string, e: Event)
    requires weatherFilter != ""
    requires e in FilterEvents(events, searchInput, weatherFilter)
    ensures e.weather == weatherFilter
  {
  }

  /** The search does not care about the case of the search text. */
  lemma FilterIgnoresCase(events: seq<Event>, a: string, b: string, weatherFilter: string)
    requires Lower(a) == Lower(b)
    ensures FilterEvents(events, a, weatherFilter) == FilterEvents(events, b, weatherFilter)
  {
  }

  /**
   * The demo set meets the premises of FilterBay: only the second event's text
   * mentions "bay" (its location), the other two have no letter y at all.
   */
  lemma DemoBayPremises(createdAt: string)
    ensures var d := DemoEvents(createdAt);
      && d == [d[0], d[1], d[2]]
      && 'y' !in d[0].name && 'Y' !in d[0].name && 'y' !in d[0].location && 'Y' !in d[0].location
      && d[1].location == "Marina Bay, CA"
      && 'y' !in d[2].name && 'Y' !in d[2].name && 'y' !in d[2].location && 'Y' !in d[2].location
  {
    DemoFirstLacksY(createdAt);
    DemoThirdLacksY(createdAt);
  }

  /** Searching "bay" over the demo set shows only Marina Bay Deep Clean. */
  lemma DemoBay(createdAt: string)
    ensures FilterEvents(DemoEvents(createdAt), "bay", "") == [DemoEvents(createdAt)[1]]
  {
    DemoBayPremises(createdAt);
    var d := DemoEvents(createdAt);
    FilterBay(d[0], d[1], d[2]);
  }

  lemma DemoFirstLacksY(createdAt: string)
    ensures var e := DemoEvents(createdAt)[0];
      'y' !in e.name && 'Y' !in e.name && 'y' !in e.location && 'Y' !in e.location
  {
    DemoTextsLackY();
  }

  lemma DemoThirdLacksY(createdAt: string)
    ensures var e := DemoEvents(createdAt)[2];
      'y' !in e.name && 'Y' !in e.name && 'y' !in e.location && 'Y' !in e.location
  {
    assert DemoEvents(createdAt)[2].name == "Coral Reef Restoration";
    assert DemoEvents(createdAt)[2].location == "Coral Cove, HI";
    DemoTextsLackY();
  }

  /** The names and locations of demo events 1 and 3 have no letter y. */
  lemma DemoTextsLackY()
    ensures 'y' !in "Sunset Beach Cleanup" && 'Y' !in "Sunset Beach Cleanup"
    ensures 'y' !in "Sunset Beach, CA" && 'Y' !in "Sunset Beach, CA"
    ensures 'y' !in "Coral Reef Restoration" && 'Y' !in "Coral Reef Restoration"
    ensures 'y' !in "Coral Cove, HI" && 'Y' !in "Coral Cove, HI"
  {
  }

  /** Searching "bay" keeps only an event located at Marina Bay; with DemoBayPremises, the demo case. */
  lemma FilterBay(a: Event, b: Event, c: Event)
    requires 'y' !in a.name && 'Y' !in a.name && 'y' !in a.location && 'Y' !in a.location
    requires b.location == "Marina Bay, CA"
    requires 'y' !in c.name && 'Y' !in c.name && 'y' !in c.location && 'Y' !in c.location
    ensures FilterEvents([a, b, c], "bay", "") == [b]
  {
    LowerBay();
    BayDrops(a);
    BayKeepsMarina(b);
    BayDrops(c);
    assert [a, b, c][1..] == [b, c] && [b, c][1..] == [c] && [c][1..] == [];
    assert Keep([c], "bay", "") == [];
    assert Keep([b, c], "bay", "") == [b];
  }

  lemma LowerBay()
    ensures Lower("bay") == "bay"
  {
    assert Lower("bay")[0] == 'b' && Lower("bay")[1] == 'a' && Lower("bay")[2] == 'y';
  }

  lemma BayKeepsMarina(e: Event)
    requires e.location == "Marina Bay, CA"
    ensures Kept(e, "bay", "")
  {
    var loc := Lower(e.location);
    assert loc[7] == 'b' && loc[8] == 'a' && loc[9] == 'y';
    assert loc[7..10] == "bay";
    OccursImpliesContains(loc, "bay", 7);
  }

  lemma BayDrops(e: Event)
    requires 'y' !in e.name && 'Y' !in e.name && 'y' !in e.location && 'Y' !in e.location
    ensures !Kept(e, "bay", "")
  {
    LacksBay(e.name);
    LacksBay(e.location);
  }

  /** Text without a 'y' or 'Y' does not contain "bay" once lower-cased. */
  lemma LacksBay(s: string)
    requires 'y' !in s && 'Y' !in s
    ensures !Contains(Lower(s), "bay")
  {
    var l := Lower(s);
    forall i | 0 <= i && i + 3 <= |l|
      ensures !OccursAt(l, "bay", i)
    {
      assert l[i..i + 3][2] == LowerChar(s[i + 2]);
    }
    ContainsIff(l, "bay");
  }
}
