/**
 * Google Calendar events: the start of an event, grouping events by day and
 * merging the events of all calendars into one list ordered by start.
 *
 * Dates are millisecond timestamps. `stringToDate` and `extractDateString` are
 * not part of this model; they are the function parameters `toDate` and `dayKey`.
 * The calendar client is not modelled: the per-calendar responses are inputs.
 */
module CalendarApi {
  import opened Wrappers

  datatype EventStart = EventStart(dateTime: Option<string>, date: Option<string>)
  datatype Event = Event(id: string, start: Option<EventStart>)
  datatype Calendar = Calendar(id: string)

  /** An event together with the calendar it belongs to. */
  datatype CalendarEvent = CalendarEvent(calendar: Calendar, event: Event)

  /** One calendar's response: its entry and its event items, which may be missing. */
  datatype CalendarEvents = CalendarEvents(calendar: Calendar, items: Option<seq<Event>>)

  /** A day and its events. The source turns the key back into a `Date`; the model keeps the key. */
  datatype DayEvents = DayEvents(day: string, events: seq<CalendarEvent>)

  predicate Truthy(s: Option<string>)
  {
    s.Some? && s.value != ""
  }

  /** `startOfEvent`: the date-time when set, else the date, else nothing. */
  function StartOfEvent(event: Option<Event>, toDate: string -> int): (r: Option<int>)
    ensures r.None? <==> (event.None? || event.value.start.None? ||
                          (!Truthy(event.value.start.value.dateTime) && !Truthy(event.value.start.value.date)))
    ensures r.Some? && Truthy(event.value.start.value.dateTime) ==> r.value == toDate(event.value.start.value.dateTime.value)
    ensures r.Some? && !Truthy(event.value.start.value.dateTime) ==> r.value == toDate(event.value.start.value.date.value)
  {
    if event.None? || event.value.start.None? then None
    else
      var start := event.value.start.value;
      if Truthy(start.dateTime) then Some(toDate(start.dateTime.value))
      else if Truthy(start.date) then Some(toDate(start.date.value))
      else None
  }

  // ---------------------------------------------------------------- grouping by day

  /** The day an event is filed under, if it has a start. */
  function DayOf(e: CalendarEvent, toDate: string -> int, dayKey: int -> string): Option<string>
  {
    match StartOfEvent(Some(e.event), toDate)
    case None => None
    case Some(t) => Some(dayKey(t))
  }

  /** The position of the group for `day`, or `|groups|` when there is none. */
  function GroupIndex(groups: seq<DayEvents>, day: string): (r: nat)
    ensures r <= |groups|
    ensures r < |groups| ==> groups[r].day == day
    ensures forall i :: 0 <= i < r ==> groups[i].day != day
    decreases |groups|
  {
    if |groups| == 0 then 0
    else if groups[0].day == day then 0
    else 1 + GroupIndex(groups[1..], day)
  }

  /** Filing one event: appended to its day's group, or a new group at the end. */
  function AddToDay(groups: seq<DayEvents>, day: string, e: CalendarEvent): seq<DayEvents>
  {
    var j := GroupIndex(groups, day);
    if j < |groups| then groups[j := DayEvents(day, groups[j].events + [e])]
    else groups + [DayEvents(day, [e])]
  }

  /** The groups after filing `events` in order; days keep the order of their first event, as a record does for keys that are not integer-like. */
  function Grouped(events: seq<CalendarEvent>, toDate: string -> int, dayKey: int -> string): seq<DayEvents>
    decreases |events|
  {
    if |events| == 0 then []
    else
      var prev := Grouped(events[..|events| - 1], toDate, dayKey);
      var e := events[|events| - 1];
      match DayOf(e, toDate, dayKey)
      case None => prev
      case Some(day) => AddToDay(prev, day, e)
  }

  /** The events filed under `day`, in input order. */
  function OnDay(events: seq<CalendarEvent>, day: string, toDate: string -> int, dayKey: int -> string): seq<CalendarEvent>
    decreases |events|
  {
    if |events| == 0 then []
    else
      var e := events[|events| - 1];
      OnDay(events[..|events| - 1], day, toDate, dayKey) + (if DayOf(e, toDate, dayKey) == Some(day) then [e] else [])
  }

  predicate DistinctDays(groups: seq<DayEvents>)
  {
    forall i, j :: 0 <= i < j < |groups| ==> groups[i].day != groups[j].day
  }

  /** Only the days matter to the search. */
  lemma {:induction false} GroupIndexSameDays(a: seq<DayEvents>, b: seq<DayEvents>, d: string)
    requires |a| == |b| && forall i :: 0 <= i < |a| ==> a[i].day == b[i].day
    ensures GroupIndex(a, d) == GroupIndex(b, d)
    decreases |a|
  {
    if |a| > 0 && a[0].day != d {
      GroupIndexSameDays(a[1..], b[1..], d);
    }
  }

  /** Appending a group leaves every earlier day where it was, and finds the new one last. */
  lemma {:induction false} GroupIndexAppend(a: seq<DayEvents>, x: DayEvents, d: string)
    ensures GroupIndex(a + [x], d) ==
      if GroupIndex(a, d) < |a| then GroupIndex(a, d) else if x.day == d then |a| else |a| + 1
    decreases |a|
  {
    if |a| > 0 {
      assert (a + [x])[1..] == a[1..] + [x];
      GroupIndexAppend(a[1..], x, d);
    }
  }

  /** In a list of distinct days, the search for a group's day finds that group. */
  lemma GroupIndexOfDistinct(g: seq<DayEvents>, k: int)
    requires DistinctDays(g) && 0 <= k < |g|
    ensures GroupIndex(g, g[k].day) == k
  {
  }

  /** Filing an event keeps the days distinct. */
  lemma AddToDayDistinct(groups: seq<DayEvents>, day: string, e: CalendarEvent)
    requires DistinctDays(groups)
    ensures DistinctDays(AddToDay(groups, day, e))
  {
  }

  lemma {:induction false} GroupedDistinct(events: seq<CalendarEvent>, toDate: string -> int, dayKey: int -> string)
    ensures DistinctDays(Grouped(events, toDate, dayKey))
    decreases |events|
  {
    if |events| > 0 {
      var prefix := events[..|events| - 1];
      GroupedDistinct(prefix, toDate, dayKey);
      match DayOf(events[|events| - 1], toDate, dayKey)
      case None =>
      case Some(day) => AddToDayDistinct(Grouped(prefix, toDate, dayKey), day, events[|events| - 1]);
    }
  }

  /** Filing an event on `day` changes neither the presence nor the position of another day. */
  lemma AddToDayOther(prev: seq<DayEvents>, day: string, e: CalendarEvent, d: string)
    requires day != d
    ensures var g := AddToDay(prev, day, e);
      (GroupIndex(g, d) < |g| <==> GroupIndex(prev, d) < |prev|) &&
      (GroupIndex(prev, d) < |prev| ==> GroupIndex(g, d) == GroupIndex(prev, d) &&
                                        g[GroupIndex(g, d)] == prev[GroupIndex(prev, d)])
  {
    var j := GroupIndex(prev, day);
    if j < |prev| {
      GroupIndexSameDays(prev, AddToDay(prev, day, e), d);
    } else {
      GroupIndexAppend(prev, DayEvents(day, [e]), d);
    }
  }

  /** Filing an event on `day` puts it last in that day's group, creating the group if needed. */
  lemma AddToDaySame(prev: seq<DayEvents>, day: string, e: CalendarEvent)
    ensures var g := AddToDay(prev, day, e);
      GroupIndex(g, day) < |g| &&
      g[GroupIndex(g, day)].events ==
        (if GroupIndex(prev, day) < |prev| then prev[GroupIndex(prev, day)].events else []) + [e]
  {
    var j := GroupIndex(prev, day);
    if j < |prev| {
      GroupIndexSameDays(prev, AddToDay(prev, day, e), day);
    } else {
      GroupIndexAppend(prev, DayEvents(day, [e]), day);
    }
  }

  /**
   * Per day: a group exists exactly when some event falls on that day, and it
   * holds exactly those events, in input order.
   */
  lemma {:induction false} GroupedDay(events: seq<CalendarEvent>, d: string, toDate: string -> int, dayKey: int -> string)
    ensures var g := Grouped(events, toDate, dayKey);
      (GroupIndex(g, d) < |g| <==> OnDay(events, d, toDate, dayKey) != []) &&
      (GroupIndex(g, d) < |g| ==> g[GroupIndex(g, d)].events == OnDay(events, d, toDate, dayKey))
    decreases |events|
  {
    if |events| > 0 {
      var prefix := events[..|events| - 1];
      var e := events[|events| - 1];
      GroupedDay(prefix, d, toDate, dayKey);
      var prev := Grouped(prefix, toDate, dayKey);
      match DayOf(e, toDate, dayKey)
      case None =>
      case Some(day) =>
        if day == d {
          AddToDaySame(prev, day, e);
        } else {
          AddToDayOther(prev, day, e, d);
        }
    }
  }

  /** Every event with a start is among the events of its day. */
  lemma {:induction false} OnDayContains(events: seq<CalendarEvent>, i: int, toDate: string -> int, dayKey: int -> string)
    requires 0 <= i < |events| && DayOf(events[i], toDate, dayKey).Some?
    ensures events[i] in OnDay(events, DayOf(events[i], toDate, dayKey).value, toDate, dayKey)
    decreases |events|
  {
    if i < |events| - 1 {
      var prefix := events[..|events| - 1];
      assert prefix[i] == events[i];
      OnDayContains(prefix, i, toDate, dayKey);
    }
  }

  /**
   * The grouping: days are distinct, every group holds exactly the events of its
   * day in input order and is never empty, and every event with a start sits in
   * its day's group.
   */
  lemma GroupedShape(events: seq<CalendarEvent>, toDate: string -> int, dayKey: int -> string)
    ensures DistinctDays(Grouped(events, toDate, dayKey))
    ensures forall k :: 0 <= k < |Grouped(events, toDate, dayKey)| ==>
      var g := Grouped(events, toDate, dayKey);
      g[k].events == OnDay(events, g[k].day, toDate, dayKey) && g[k].events != []
    ensures forall i :: 0 <= i < |events| && DayOf(events[i], toDate, dayKey).Some? ==>
      var g := Grouped(events, toDate, dayKey);
      var k := GroupIndex(g, DayOf(events[i], toDate, dayKey).value);
      k < |g| && events[i] in g[k].events
  {
    var g := Grouped(events, toDate, dayKey);
    GroupedDistinct(events, toDate, dayKey);
    forall k | 0 <= k < |g|
      ensures g[k].events == OnDay(events, g[k].day, toDate, dayKey) && g[k].events != []
    {
      GroupIndexOfDistinct(g, k);
      GroupedDay(events, g[k].day, toDate, dayKey);
    }
    forall i | 0 <= i < |events| && DayOf(events[i], toDate, dayKey).Some?
      ensures GroupIndex(g, DayOf(events[i], toDate, dayKey).value) < |g|
      ensures events[i] in g[GroupIndex(g, DayOf(events[i], toDate, dayKey).value)].events
    {
      OnDayContains(events, i, toDate, dayKey);
      GroupedDay(events, DayOf(events[i], toDate, dayKey).value, toDate, dayKey);
    }
  }

  /** `groupEventsByDay` */
  method GroupEventsByDay(events: Option<seq<CalendarEvent>>, toDate: string -> int, dayKey: int -> string)
    returns (r: Option<seq<DayEvents>>)
    ensures r.None? <==> events.None? || |events.value| == 0
    ensures r.Some? ==> r.value == Grouped(events.value, toDate, dayKey)
  {
    if events.None? || |events.value| <= 0 {
      return None;
    }
    var all := events.value;
    var days: seq<DayEvents> := [];
    for i := 0 to |all|
      invariant days == Grouped(all[..i], toDate, dayKey)
    {
      assert all[..i + 1][..i] == all[..i];
      var e := all[i];
      var start := StartOfEvent(Some(e.event), toDate);
      if start.None? {
        continue;
      }
      var key := dayKey(start.value);
      var j := GroupIndex(days, key);
      if j < |days| {
        days := days[j := DayEvents(key, days[j].events + [e])];
      } else {
        days := days + [DayEvents(key, [e])];
      }
    }
    assert all[..|all|] == all;
    return Some(days);
  }

  // ---------------------------------------------------------------- merging and sorting

  /** The items of one calendar, each tagged with that calendar. */
  function Tagged(cal: CalendarEvents): (r: seq<CalendarEvent>)
    ensures cal.items.None? ==> r == []
    ensures cal.items.Some? ==> |r| == |cal.items.value|
    ensures cal.items.Some? ==> forall i :: 0 <= i < |cal.items.value| ==> r[i] == CalendarEvent(cal.calendar, cal.items.value[i])
  {
    if cal.items.None? then []
    else seq(|cal.items.value|, i requires 0 <= i < |cal.items.value| => CalendarEvent(cal.calendar, cal.items.value[i]))
  }

  /** All calendars' tagged items, calendar after calendar. */
  function AllEvents(calendars: seq<CalendarEvents>): seq<CalendarEvent>
    decreases |calendars|
  {
    if |calendars| == 0 then [] else AllEvents(calendars[..|calendars| - 1]) + Tagged(calendars[|calendars| - 1])
  }

  /** Every item of every calendar is among the merged events, tagged with its own calendar. */
  lemma {:induction false} AllEventsComplete(calendars: seq<CalendarEvents>, c: int, i: int)
    requires 0 <= c < |calendars| && calendars[c].items.Some? && 0 <= i < |calendars[c].items.value|
    ensures CalendarEvent(calendars[c].calendar, calendars[c].items.value[i]) in AllEvents(calendars)
    decreases |calendars|
  {
    if c < |calendars| - 1 {
      AllEventsComplete(calendars[..|calendars| - 1], c, i);
    } else {
      assert Tagged(calendars[c])[i] in Tagged(calendars[c]);
    }
  }

  /** Merged events carry only items of their own calendar. */
  lemma {:induction false} AllEventsSound(calendars: seq<CalendarEvents>, e: CalendarEvent)
    requires e in AllEvents(calendars)
    ensures exists c :: 0 <= c < |calendars| && calendars[c].calendar == e.calendar &&
                        calendars[c].items.Some? && e.event in calendars[c].items.value
    decreases |calendars|
  {
    var n := |calendars| - 1;
    if e in AllEvents(calendars[..n]) {
      AllEventsSound(calendars[..n], e);
      var c :| 0 <= c < n && calendars[..n][c].calendar == e.calendar &&
               calendars[..n][c].items.Some? && e.event in calendars[..n][c].items.value;
      assert calendars[c] == calendars[..n][c];
    } else {
      var t := Tagged(calendars[n]);
      var i :| 0 <= i < |t| && t[i] == e;
      assert e.event == calendars[n].items.value[i];
    }
  }

  /** The time an event is sorted by: its start, or `new Date(2099)`, 2099 ms after the epoch. */
  function SortKey(e: CalendarEvent, toDate: string -> int): int
  {
    StartOfEvent(Some(e.event), toDate).GetOr(2099)
  }

  /** The comparator's key as a function value, so the sort below only compares keys. */
  function StartKey(toDate: string -> int): (key: CalendarEvent -> int)
    ensures forall e :: key(e) == SortKey(e, toDate)
  {
    (e: CalendarEvent) => SortKey(e, toDate)
  }

  predicate SortedBy(s: seq<CalendarEvent>, key: CalendarEvent -> int)
  {
    forall i, j :: 0 <= i < j < |s| ==> key(s[i]) <= key(s[j])
  }

  /** Stable insertion: `e` goes after every element whose key is not larger. */
  function Insert(sorted: seq<CalendarEvent>, e: CalendarEvent, key: CalendarEvent -> int): seq<CalendarEvent>
    decreases |sorted|
  {
    if |sorted| == 0 then [e]
    else if key(sorted[|sorted| - 1]) <= key(e) then sorted + [e]
    else Insert(sorted[..|sorted| - 1], e, key) + [sorted[|sorted| - 1]]
  }

  /** The stable sort that `Array.prototype.sort` performs with a comparator on `key`. */
  function SortBy(s: seq<CalendarEvent>, key: CalendarEvent -> int): seq<CalendarEvent>
    decreases |s|
  {
    if |s| == 0 then [] else Insert(SortBy(s[..|s| - 1], key), s[|s| - 1], key)
  }

  lemma {:induction false} InsertPermutes(sorted: seq<CalendarEvent>, e: CalendarEvent, key: CalendarEvent -> int)
    ensures multiset(Insert(sorted, e, key)) == multiset(sorted) + multiset{e}
    decreases |sorted|
  {
    if |sorted| > 0 && key(sorted[|sorted| - 1]) > key(e) {
      var init := sorted[..|sorted| - 1];
      InsertPermutes(init, e, key);
      assert sorted == init + [sorted[|sorted| - 1]];
    }
  }

  lemma {:induction false} InsertSorted(sorted: seq<CalendarEvent>, e: CalendarEvent, key: CalendarEvent -> int)
    requires SortedBy(sorted, key)
    ensures SortedBy(Insert(sorted, e, key), key)
    decreases |sorted|
  {
    if |sorted| > 0 && key(sorted[|sorted| - 1]) > key(e) {
      var init := sorted[..|sorted| - 1];
      var last := sorted[|sorted| - 1];
      InsertSorted(init, e, key);
      InsertPermutes(init, e, key);
      var ins := Insert(init, e, key);
      forall x | x in ins
        ensures key(x) <= key(last)
      {
        assert x in multiset(ins);
        assert x == e || x in multiset(init);
      }
      var r := ins + [last];
      forall i, j | 0 <= i < j < |r|
        ensures key(r[i]) <= key(r[j])
      {
        if j == |r| - 1 {
          assert r[i] in ins;
        }
      }
    }
  }

  /** The sort orders by key and is a permutation of its input. */
  lemma {:induction false} SortByProperties(s: seq<CalendarEvent>, key: CalendarEvent -> int)
    ensures SortedBy(SortBy(s, key), key)
    ensures multiset(SortBy(s, key)) == multiset(s)
    decreases |s|
  {
    if |s| > 0 {
      var init := s[..|s| - 1];
      SortByProperties(init, key);
      InsertSorted(SortBy(init, key), s[|s| - 1], key);
      InsertPermutes(SortBy(init, key), s[|s| - 1], key);
      assert s == init + [s[|s| - 1]];
    }
  }

  /** Where `Insert` places the new event: after the last element whose key is not larger. */
  function InsertionPoint(sorted: seq<CalendarEvent>, e: CalendarEvent, key: CalendarEvent -> int): (p: nat)
    ensures p <= |sorted|
    ensures p == 0 || key(sorted[p - 1]) <= key(e)
    ensures forall i :: p <= i < |sorted| ==> key(sorted[i]) > key(e)
    decreases |sorted|
  {
    if |sorted| == 0 || key(sorted[|sorted| - 1]) <= key(e) then |sorted|
    else InsertionPoint(sorted[..|sorted| - 1], e, key)
  }

  /**
   * Stability: the new event is spliced in at the insertion point, so it follows
   * every earlier event with an equal key and the others keep their order.
   */
  lemma {:induction false} InsertAtPoint(sorted: seq<CalendarEvent>, e: CalendarEvent, key: CalendarEvent -> int)
    ensures var p := InsertionPoint(sorted, e, key);
      Insert(sorted, e, key) == sorted[..p] + [e] + sorted[p..]
    decreases |sorted|
  {
    var n := |sorted|;
    if n > 0 && key(sorted[n - 1]) > key(e) {
      var init := sorted[..n - 1];
      InsertAtPoint(init, e, key);
      var p := InsertionPoint(init, e, key);
      assert init[..p] == sorted[..p];
      assert init[p..] + [sorted[n - 1]] == sorted[p..];
    }
  }

  /** The flattening part of `getEvents`: every calendar's items, tagged, calendar after calendar. */
  method MergeCalendars(calendars: seq<CalendarEvents>) returns (eventsAll: seq<CalendarEvent>)
    ensures eventsAll == AllEvents(calendars)
  {
    eventsAll := [];
    for c := 0 to |calendars|
      invariant eventsAll == AllEvents(calendars[..c])
    {
      assert calendars[..c + 1][..c] == calendars[..c];
      var cal := calendars[c];
      if cal.items.Some? && |cal.items.value| > 0 {
        var events := Tagged(cal);
        eventsAll := eventsAll + events;
      }
    }
    assert calendars[..|calendars|] == calendars;
  }

  /** `eventsAll.sort(...)`, by insertion. */
  method SortEvents(events: seq<CalendarEvent>, key: CalendarEvent -> int) returns (r: seq<CalendarEvent>)
    ensures r == SortBy(events, key)
    ensures SortedBy(r, key) && multiset(r) == multiset(events)
  {
    r := [];
    for i := 0 to |events|
      invariant r == SortBy(events[..i], key)
    {
      assert events[..i + 1][..i] == events[..i];
      r := Insert(r, events[i], key);
    }
    assert events[..|events|] == events;
    SortByProperties(events, key);
  }

  /** The merge-and-sort part of `getEvents`: all events, ordered by start (undated ones at 2099 ms). */
  method GetEvents(calendars: seq<CalendarEvents>, toDate: string -> int) returns (r: seq<CalendarEvent>)
    ensures SortedBy(r, StartKey(toDate))
    ensures multiset(r) == multiset(AllEvents(calendars))
    ensures r == SortBy(AllEvents(calendars), StartKey(toDate))
  {
    var eventsAll := MergeCalendars(calendars);
    r := SortEvents(eventsAll, StartKey(toDate));
  }
}
