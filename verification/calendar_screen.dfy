/**
 * The calendar screen's own logic: moving the displayed month, the key under which a day
 * looks up its events, the events shown on a day, and the add-event form.
 */
module CalendarScreen {
  import opened Wrappers
  import opened Text
  import opened Types
  import Session

  // ---------------------------------------------------------------------------
  // The displayed month
  // ---------------------------------------------------------------------------

  /** The month the grid shows: a full year and a month number from 0 (January) to 11. */
  datatype Month = Month(year: int, month: nat)

  /** Months counted from year zero, so that consecutive months differ by one. */
  function MonthIndex(c: Month): int {
    12 * c.year + c.month
  }

  /**
   * `new Date(year, month, 1)` read back as a month: a year from 0 to 99 means 1900 plus
   * that year, and a month outside 0..11 carries into the year.
   */
  function DateOf(year: int, month: int): (c: Month)
    ensures c.month < 12
    ensures MonthIndex(c) == 12 * (if 0 <= year <= 99 then 1900 + year else year) + month
  {
    var y := if 0 <= year <= 99 then 1900 + year else year;
    Month(y + month / 12, month % 12)
  }

  /** The year-and-month shown are determined by the month index alone. */
  lemma MonthIndexInjective(c: Month, d: Month)
    requires c.month < 12 && d.month < 12
    requires MonthIndex(c) == MonthIndex(d)
    ensures c == d
  {
  }

  /** The previous-month button. */
  function PrevMonth(c: Month): (r: Month)
    ensures r.month < 12
    ensures !(0 <= c.year <= 99) ==> MonthIndex(r) == MonthIndex(c) - 1
  {
    DateOf(c.year, c.month - 1)
  }

  /** The next-month button. */
  function NextMonth(c: Month): (r: Month)
    ensures r.month < 12
    ensures !(0 <= c.year <= 99) ==> MonthIndex(r) == MonthIndex(c) + 1
  {
    DateOf(c.year, c.month + 1)
  }

  /** Away from the years 0 to 100, going back a month and forward again returns to the month shown. */
  lemma NextUndoesPrev(c: Month)
    requires c.month < 12
    requires c.year < 0 || c.year > 100
    ensures NextMonth(PrevMonth(c)) == c
  {
    MonthIndexInjective(NextMonth(PrevMonth(c)), c);
  }

  /** Away from the years -1 to 99, going forward a month and back again returns to the month shown. */
  lemma PrevUndoesNext(c: Month)
    requires c.month < 12
    requires c.year < -1 || c.year > 99
    ensures PrevMonth(NextMonth(c)) == c
  {
    MonthIndexInjective(PrevMonth(NextMonth(c)), c);
  }

  /** From December of year 99 the next-month button jumps to January 2000. */
  lemma NextFromYear99()
    ensures NextMonth(Month(99, 11)) == Month(2000, 0)
    ensures PrevMonth(Month(100, 0)) == Month(99, 11)
  {
  }

  // ---------------------------------------------------------------------------
  // Days and their events
  // ---------------------------------------------------------------------------

  /** The `YYYY-MM-DD` key of a day of the shown month: month and day padded to two digits. */
  function DateKey(c: Month, day: nat): (k: string)
    requires c.month < 12 && 1 <= day <= 31
    ensures |k| == |Decimal(c.year)| + 6
    ensures k[..|Decimal(c.year)|] == Decimal(c.year)
    ensures k[|k| - 6] == '-' && k[|k| - 3] == '-'
    ensures k[|k| - 5..|k| - 3] == TwoDigits(c.month + 1)
    ensures k[|k| - 2..] == TwoDigits(day)
  {
    Decimal(c.year) + "-" + Pad2(Decimal(c.month + 1)) + "-" + Pad2(Decimal(day))
  }

  /** Distinct days, in the same or different months, have distinct keys. */
  lemma DateKeyInjective(c: Month, day: nat, d: Month, day': nat)
    requires c.month < 12 && 1 <= day <= 31
    requires d.month < 12 && 1 <= day' <= 31
    requires DateKey(c, day) == DateKey(d, day')
    ensures c == d && day == day'
  {
    var k := DateKey(c, day);
    assert |Decimal(c.year)| == |Decimal(d.year)|;
    DecimalInjective(c.year, d.year);
  }

  /** `events.filter(e => e.date === key)`. */
  function EventsOn(events: seq<CalendarEvent>, key: string): (r: seq<CalendarEvent>)
    ensures |r| <= |events|
    ensures forall e :: e in r <==> e in events && e.date == key
  {
    if events == [] then []
    else (if events[0].date == key then [events[0]] else []) + EventsOn(events[1..], key)
  }

  /** Filtering keeps the list's order: it distributes over concatenation. */
  lemma {:induction false} EventsOnAppend(a: seq<CalendarEvent>, b: seq<CalendarEvent>, key: string)
    ensures EventsOn(a + b, key) == EventsOn(a, key) + EventsOn(b, key)
    decreases |a|
  {
    if a == [] {
      assert a + b == b;
    } else {
      assert (a + b)[0] == a[0];
      assert (a + b)[1..] == a[1..] + b;
      EventsOnAppend(a[1..], b, key);
    }
  }

  /** The events a day cell shows: those dated with the day's key. */
  function EventsForDay(g: GameState, c: Month, day: nat): seq<CalendarEvent>
    requires c.month < 12 && 1 <= day <= 31
  {
    EventsOn(g.calendar.events, DateKey(c, day))
  }

  /** No event shows on two different days. */
  lemma ShownOnOneDay(g: GameState, c: Month, day: nat, d: Month, day': nat, e: CalendarEvent)
    requires c.month < 12 && 1 <= day <= 31
    requires d.month < 12 && 1 <= day' <= 31
    requires e in EventsForDay(g, c, day) && e in EventsForDay(g, d, day')
    ensures c == d && day == day'
  {
    DateKeyInjective(c, day, d, day');
  }

  /** An added event shows on its own day, after that day's earlier events, and on no other. */
  lemma AddedShowsOnItsDay(g: GameState, title: string, date: string, description: Option<string>, now: int, key: string)
    ensures EventsOn(Session.AddEvent(g, title, date, description, now).calendar.events, key)
         == EventsOn(g.calendar.events, key)
            + (if date == key then [CalendarEvent(Decimal(now), title, date, description, false)] else [])
  {
    var e := CalendarEvent(Decimal(now), title, date, description, false);
    EventsOnAppend(g.calendar.events, [e], key);
    assert [e][1..] == [];
  }

  /** Toggling completion moves no event to another day: each day shows its own events, toggled. */
  lemma {:induction false} ToggleKeepsDays(events: seq<CalendarEvent>, id: string, key: string)
    ensures EventsOn(Session.Toggle(events, id), key) == Session.Toggle(EventsOn(events, key), id)
    decreases |events|
  {
    if events != [] {
      var e := events[0];
      var head := if e.date == key then [e] else [];
      var t := Session.Toggle(events, id);
      assert t[1..] == Session.Toggle(events[1..], id);
      assert t[0].date == e.date;
      ToggleKeepsDays(events[1..], id, key);
      assert EventsOn(events, key) == head + EventsOn(events[1..], key);
      Session.ToggleAppend(head, EventsOn(events[1..], key), id);
    }
  }

  // ---------------------------------------------------------------------------
  // The render's sort
  // ---------------------------------------------------------------------------

  /**
   * The events in the order of their dates' times. `time` stands for
   * `new Date(date).getTime()`; the comparator subtracts two of them.
   */
  predicate SortedByTime(s: seq<CalendarEvent>, time: string -> int) {
    forall i, j | 0 <= i < j < |s| :: time(s[i].date) <= time(s[j].date)
  }

  /** No event of `s` is timed before `b`. */
  predicate AllFrom(s: seq<CalendarEvent>, time: string -> int, b: int) {
    forall i | 0 <= i < |s| :: b <= time(s[i].date)
  }

  /** One step of a stable sort: `x` goes before the first event whose time is not earlier. */
  function InsertByTime(x: CalendarEvent, s: seq<CalendarEvent>, time: string -> int): (r: seq<CalendarEvent>)
    ensures multiset(r) == multiset(s) + multiset{x}
    decreases |s|
  {
    if s == [] then [x]
    else if time(x.date) <= time(s[0].date) then [x] + s
    else
      assert s == [s[0]] + s[1..];
      [s[0]] + InsertByTime(x, s[1..], time)
  }

  /** Inserting an event no earlier than a bound keeps every event at or after the bound. */
  lemma {:induction false} InsertFrom(x: CalendarEvent, s: seq<CalendarEvent>, time: string -> int, b: int)
    requires AllFrom(s, time, b) && b <= time(x.date)
    ensures AllFrom(InsertByTime(x, s, time), time, b)
    decreases |s|
  {
    if s != [] && time(x.date) > time(s[0].date) {
      InsertFrom(x, s[1..], time, b);
      var r := [s[0]] + InsertByTime(x, s[1..], time);
      assert forall k | 1 <= k < |r| :: r[k] == InsertByTime(x, s[1..], time)[k - 1];
    }
  }

  /** Inserting into a sorted list keeps it sorted. */
  lemma {:induction false} InsertSorted(x: CalendarEvent, s: seq<CalendarEvent>, time: string -> int)
    requires SortedByTime(s, time)
    ensures SortedByTime(InsertByTime(x, s, time), time)
    decreases |s|
  {
    if s != [] {
      var t0 := time(s[0].date);
      if time(x.date) <= t0 {
        var r := [x] + s;
        assert forall k | 1 <= k < |r| :: r[k] == s[k - 1];
      } else {
        var tail := s[1..];
        assert forall k | 0 <= k < |tail| :: tail[k] == s[k + 1];
        InsertSorted(x, tail, time);
        InsertFrom(x, tail, time, t0);
        var rest := InsertByTime(x, tail, time);
        var r := [s[0]] + rest;
        assert forall k | 1 <= k < |r| :: r[k] == rest[k - 1];
      }
    }
  }

  /**
   * `events.sort((a, b) => time(a.date) - time(b.date))` as the render runs it: a stable sort
   * that leaves a permutation of the events in order of time. It sorts the stored array in
   * place, so later calendar operations start from this order.
   */
  function SortByTime(es: seq<CalendarEvent>, time: string -> int): (r: seq<CalendarEvent>)
    ensures multiset(r) == multiset(es)
    ensures SortedByTime(r, time)
    decreases |es|
  {
    if es == [] then []
    else
      assert es == [es[0]] + es[1..];
      var rest := SortByTime(es[1..], time);
      InsertSorted(es[0], rest, time);
      InsertByTime(es[0], rest, time)
  }

  /** Inserting an event shows it first among its day's events and moves no other event. */
  lemma {:induction false} InsertKeepsDays(x: CalendarEvent, s: seq<CalendarEvent>, time: string -> int, key: string)
    ensures EventsOn(InsertByTime(x, s, time), key) == (if x.date == key then [x] else []) + EventsOn(s, key)
    decreases |s|
  {
    var head := if x.date == key then [x] else [];
    if s == [] {
      assert EventsOn([x], key) == head + EventsOn([x][1..], key);
      assert [x][1..] == [];
    } else if time(x.date) <= time(s[0].date) {
      var r := [x] + s;
      assert r[0] == x && r[1..] == s;
    } else {
      var rest := InsertByTime(x, s[1..], time);
      var r := [s[0]] + rest;
      assert r[0] == s[0] && r[1..] == rest;
      InsertKeepsDays(x, s[1..], time, key);
      var first := if s[0].date == key then [s[0]] else [];
      assert EventsOn(s, key) == first + EventsOn(s[1..], key);
      assert head == [] || first == [];
    }
  }

  /**
   * The render's sort changes no day's list: events of one day share a date and hence a time,
   * and the stable sort keeps them in the order they were stored.
   */
  lemma {:induction false} SortKeepsDays(es: seq<CalendarEvent>, time: string -> int, key: string)
    ensures EventsOn(SortByTime(es, time), key) == EventsOn(es, key)
    decreases |es|
  {
    if es != [] {
      SortKeepsDays(es[1..], time, key);
      InsertKeepsDays(es[0], SortByTime(es[1..], time), time, key);
    }
  }

  // ---------------------------------------------------------------------------
  // The add-event form
  // ---------------------------------------------------------------------------

  /** The form's state: whether it is open, and the three text fields as typed. */
  datatype Form = Form(open: bool, title: string, date: string, desc: string)

  datatype Screen = Screen(form: Form, game: GameState)

  /**
   * Submitting the form: with a title that is not only white space and a date, the event is
   * added with trimmed title and description, the form closes and its title and description
   * are cleared (the date is kept); otherwise nothing happens.
   */
  function Submit(s: Screen, now: int): (r: Screen)
    ensures var accepted := !AllSpace(s.form.title) && s.form.date != [];
            && (accepted ==>
                  && r.form == Form(false, "", s.form.date, "")
                  && |r.game.calendar.events| == |s.game.calendar.events| + 1
                  && r.game.calendar.events[..|s.game.calendar.events|] == s.game.calendar.events
                  && var e := r.game.calendar.events[|s.game.calendar.events|];
                     && e.title == Trim(s.form.title) && e.title != [] && Trimmed(e.title)
                     && e.date == s.form.date
                     && e.description == Some(Trim(s.form.desc))
                     && !e.isCompleted)
            && (!accepted ==> r == s)
    ensures Session.Frame(s.game, r.game, {Session.CalendarField})
  {
    var f := s.form;
    var title := Trim(f.title);
    if title != [] && f.date != [] then
      Screen(Form(false, "", f.date, ""), Session.AddEvent(s.game, title, f.date, Some(Trim(f.desc)), now))
    else s
  }

  /** Submitting again before typing anything adds nothing: the cleared title is refused. */
  lemma SubmitTwiceAddsOnce(s: Screen, now: int, later: int)
    ensures Submit(Submit(s, now), later) == Submit(s, now)
  {
    var r := Submit(s, now);
    assert AllSpace(r.form.title) || r == s;
  }

  /** Every stored event has a title with content and no surrounding white space, and a date. */
  predicate WellFormed(events: seq<CalendarEvent>) {
    forall k | 0 <= k < |events| :: events[k].title != [] && Trimmed(events[k].title) && events[k].date != []
  }

  /** The form only ever stores well-formed events. */
  lemma SubmitWellFormed(s: Screen, now: int)
    requires WellFormed(s.game.calendar.events)
    ensures WellFormed(Submit(s, now).game.calendar.events)
  {
    var events := s.game.calendar.events;
    var added := Submit(s, now).game.calendar.events;
    forall k | 0 <= k < |added|
      ensures added[k].title != [] && Trimmed(added[k].title) && added[k].date != []
    {
      if k < |events| {
        assert added[k] == events[k];
      }
    }
  }

  /** Toggling completion keeps every event well formed. */
  lemma ToggleWellFormed(events: seq<CalendarEvent>, id: string)
    requires WellFormed(events)
    ensures WellFormed(Session.Toggle(events, id))
  {
  }

  /** Deleting keeps every remaining event well formed. */
  lemma RemoveWellFormed(events: seq<CalendarEvent>, id: string)
    requires WellFormed(events)
    ensures WellFormed(Session.Remove(events, id))
  {
    var removed := Session.Remove(events, id);
    forall k | 0 <= k < |removed|
      ensures removed[k].title != [] && Trimmed(removed[k].title) && removed[k].date != []
    {
      assert removed[k] in events;
    }
  }
}
