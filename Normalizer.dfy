/** The event normalizer of the calendar fetcher: from the parsed components of an
    iCalendar feed to the page of canonical events that processEvents returns. This
    module holds the specification as functions and the properties proved about
    them; the fetcher session's ProcessEvents method computes the same page with the
    source's loops and is proved equal to it. */
module Normalizer {
  import opened Seqs
  import opened Text

  /** One parsed calendar component, as the iCalendar parser hands it over. */
  datatype Component = Component(
    kind: string,              // the component type, "VEVENT" for an event
    start: int,                // start instant, epoch milliseconds
    end: int,                  // end instant, epoch milliseconds
    hasHour: bool,             // whether the start carries a time of day
    summary: Option<string>,
    visibility: Option<string>,  // the CLASS property
    location: Option<string>,
    description: Option<string>,
    symbol: Option<string>,
    rrule: Option<seq<int>>)   // a recurrence rule, as the ordered instants it generates

  /** A canonical event. An absent location, description or symbol is None (the
      source stores false for them). */
  datatype Event = Event(
    title: string,
    startDate: int,
    endDate: int,
    fullDayEvent: bool,
    visibility: string,
    location: Option<string>,
    description: Option<string>,
    today: bool,
    symbol: Option<string>,
    recurring: bool)

  /** The time reference of one processEvents call: the start of today, that instant
      plus maximumNumberOfDays days, and the calendar-day test against today (local
      calendar arithmetic belongs to the date library). */
  datatype Reference = Reference(todayTime: int, futureTime: int, isToday: int -> bool)

  const NoTitle := "No Title"
  const Public := "PUBLIC"
  const VEvent := "VEVENT"

  /** Occurrences kept per recurring event. */
  const MaxOccurrences := 3

  function StartDate(e: Event): int
  {
    e.startDate
  }

  /** A JavaScript truthiness test for an optional string property. */
  predicate Truthy(o: Option<string>)
  {
    o.Some? && o.value != ""
  }

  /** `o || d` */
  function OrElse(o: Option<string>, d: string): (r: string)
    ensures Truthy(o) ==> r == o.value
    ensures !Truthy(o) ==> r == d
  {
    if Truthy(o) then o.value else d
  }

  /** `o || false` */
  function OrAbsent(o: Option<string>): (r: Option<string>)
    ensures r.Some? <==> Truthy(o)
    ensures r.Some? ==> r == o
  {
    if Truthy(o) then o else None
  }

  predicate InWindow(t: int, ref: Reference)
  {
    ref.todayTime <= t <= ref.futureTime
  }

  /** rrule.between(after, before, true, (date, i) => i < limit): the first `limit`
      instants of the rule that lie in [after, before], in rule order. */
  function Between(stream: seq<int>, after: int, before: int, limit: nat): (r: seq<int>)
    ensures |r| <= limit
    ensures forall d :: d in r ==> d in stream && after <= d <= before
  {
    if stream == [] || limit == 0 then []
    else if after <= stream[0] <= before then [stream[0]] + Between(stream[1..], after, before, limit - 1)
    else Between(stream[1..], after, before, limit)
  }

  /** The instants of the stream that lie in [after, before], in stream order. */
  function Within(stream: seq<int>, after: int, before: int): (r: seq<int>)
    ensures forall d :: d in r <==> d in stream && after <= d <= before
  {
    if stream == [] then []
    else if after <= stream[0] <= before then [stream[0]] + Within(stream[1..], after, before)
    else Within(stream[1..], after, before)
  }

  /** Between takes the first `limit` in-window instants, in stream order. */
  lemma {:induction false} BetweenFirst(stream: seq<int>, after: int, before: int, limit: nat)
    ensures var w := Within(stream, after, before);
      Between(stream, after, before, limit) == w[..if |w| < limit then |w| else limit]
  {
    if stream != [] && limit != 0 {
      var w := Within(stream, after, before);
      if after <= stream[0] <= before {
        BetweenFirst(stream[1..], after, before, limit - 1);
        var w' := Within(stream[1..], after, before);
        assert w == [stream[0]] + w';
        assert w[..if |w| < limit then |w| else limit] ==
          [stream[0]] + w'[..if |w'| < limit - 1 then |w'| else limit - 1];
      } else {
        BetweenFirst(stream[1..], after, before, limit);
      }
    }
  }

  /** How many instants of the stream lie in [after, before]. */
  function CountIn(stream: seq<int>, after: int, before: int): nat
  {
    if stream == [] then 0
    else (if after <= stream[0] <= before then 1 else 0) + CountIn(stream[1..], after, before)
  }

  /** Between keeps min(limit, CountIn) instants: all of them when there are at most
      `limit`, exactly `limit` when there are more. */
  lemma {:induction false} BetweenLength(stream: seq<int>, after: int, before: int, limit: nat)
    ensures |Between(stream, after, before, limit)| ==
      if CountIn(stream, after, before) < limit then CountIn(stream, after, before) else limit
  {
    if stream != [] && limit != 0 {
      if after <= stream[0] <= before {
        BetweenLength(stream[1..], after, before, limit - 1);
      } else {
        BetweenLength(stream[1..], after, before, limit);
      }
    }
  }

  /** When every instant of the stream lies in the window, Between is a prefix. */
  lemma {:induction false} BetweenPrefix(stream: seq<int>, after: int, before: int, limit: nat)
    requires forall i :: 0 <= i < |stream| ==> after <= stream[i] <= before
    ensures Between(stream, after, before, limit) ==
      stream[..if |stream| < limit then |stream| else limit]
  {
    if stream != [] && limit != 0 {
      BetweenPrefix(stream[1..], after, before, limit - 1);
      assert stream[..if |stream| < limit then |stream| else limit] ==
        [stream[0]] + stream[1..][..if |stream| - 1 < limit - 1 then |stream| - 1 else limit - 1];
    }
  }

  /** excludedEvents.some(f => summary?.toLowerCase().includes(f.toLowerCase())):
      a missing summary is never excluded. */
  predicate Excluded(summary: Option<string>, phrases: seq<string>)
  {
    summary.Some? && exists i :: 0 <= i < |phrases| && Includes(Lower(summary.value), Lower(phrases[i]))
  }

  /** The event one occurrence of a recurring component yields. */
  function FromOccurrence(c: Component, date: int, ref: Reference): (e: Event)
    ensures e.startDate == date && e.endDate - e.startDate == c.end - c.start
    ensures e.recurring
  {
    Event(OrElse(c.summary, NoTitle), date, date + (c.end - c.start), !c.hasHour,
          OrElse(c.visibility, Public), OrAbsent(c.location), OrAbsent(c.description),
          ref.isToday(date), OrAbsent(c.symbol), true)
  }

  /** The event a non-recurring component yields. */
  function Single(c: Component, ref: Reference): (e: Event)
    ensures e.startDate == c.start && e.endDate == c.end
    ensures !e.recurring
  {
    Event(OrElse(c.summary, NoTitle), c.start, c.end, !c.hasHour,
          OrElse(c.visibility, Public), OrAbsent(c.location), OrAbsent(c.description),
          ref.isToday(c.start), OrAbsent(c.symbol), false)
  }

  function Occurrences(c: Component, dates: seq<int>, ref: Reference): (r: seq<Event>)
    ensures |r| == |dates|
    ensures forall k :: 0 <= k < |dates| ==> r[k] == FromOccurrence(c, dates[k], ref)
  {
    seq(|dates|, k requires 0 <= k < |dates| => FromOccurrence(c, dates[k], ref))
  }

  /** The occurrence instants kept for a recurring component. */
  function OccurrenceDates(c: Component, ref: Reference): seq<int>
    requires c.rrule.Some?
  {
    Between(c.rrule.value, ref.todayTime, ref.futureTime, MaxOccurrences)
  }

  /** The events a single component contributes, in the order they are pushed. */
  function Contribution(c: Component, ref: Reference, phrases: seq<string>): seq<Event>
  {
    if c.kind != VEvent then []
    else if c.start < ref.todayTime || c.start > ref.futureTime then []
    else if c.rrule.Some? then Occurrences(c, OccurrenceDates(c, ref), ref)
    else if Excluded(c.summary, phrases) then []
    else [Single(c, ref)]
  }

  /** What one component contributes: nothing unless it is a VEVENT whose own start
      lies in the inclusive window; for a recurring one at most three occurrences,
      each in the window, keeping the master's duration, title and class, and never
      subject to the exclusion filter; for a non-recurring one its single event,
      exactly when no excluded phrase matches its summary. */
  lemma ContributionMeaning(c: Component, ref: Reference, phrases: seq<string>)
    ensures var r := Contribution(c, ref, phrases);
      && (r != [] ==> c.kind == VEvent && InWindow(c.start, ref))
      && |r| <= MaxOccurrences
      && (forall e :: e in r ==> InWindow(e.startDate, ref))
      && (forall e :: e in r ==> e.title == OrElse(c.summary, NoTitle))
      && (forall e :: e in r ==> e.visibility == OrElse(c.visibility, Public))
      && (c.rrule.Some? ==> forall e :: e in r ==>
            e.recurring && e.endDate - e.startDate == c.end - c.start && e.startDate in c.rrule.value)
      && (c.rrule.None? ==>
            (r == [Single(c, ref)] <==> c.kind == VEvent && InWindow(c.start, ref) && !Excluded(c.summary, phrases))
            && (r != [Single(c, ref)] ==> r == []))
  {
    var r := Contribution(c, ref, phrases);
    if c.kind == VEvent && InWindow(c.start, ref) && c.rrule.Some? {
      var dates := OccurrenceDates(c, ref);
      forall e | e in r
        ensures InWindow(e.startDate, ref) && e.startDate in c.rrule.value
      {
        var k :| 0 <= k < |r| && r[k] == e;
        assert dates[k] in dates;
      }
    }
  }

  /** A recurring VEVENT in the window yields min(3, number of rule instants in the
      window) occurrences. */
  lemma RecurringCount(c: Component, ref: Reference, phrases: seq<string>)
    requires c.kind == VEvent && InWindow(c.start, ref) && c.rrule.Some?
    ensures var n := CountIn(c.rrule.value, ref.todayTime, ref.futureTime);
      |Contribution(c, ref, phrases)| == if n < MaxOccurrences then n else MaxOccurrences
  {
    BetweenLength(c.rrule.value, ref.todayTime, ref.futureTime, MaxOccurrences);
  }

  /** validEvents after the forEach over the components, in encounter order. */
  function ValidEvents(cs: seq<Component>, ref: Reference, phrases: seq<string>): seq<Event>
  {
    if cs == [] then []
    else ValidEvents(cs[..|cs| - 1], ref, phrases) + Contribution(cs[|cs| - 1], ref, phrases)
  }

  /** An event is valid exactly when some component contributes it. */
  lemma {:induction false} ValidEventsMembers(cs: seq<Component>, ref: Reference, phrases: seq<string>, e: Event)
    ensures e in ValidEvents(cs, ref, phrases) <==>
      exists i :: 0 <= i < |cs| && e in Contribution(cs[i], ref, phrases)
  {
    if cs != [] {
      var init := cs[..|cs| - 1];
      ValidEventsMembers(init, ref, phrases, e);
      if e in ValidEvents(init, ref, phrases) {
        var i :| 0 <= i < |init| && e in Contribution(init[i], ref, phrases);
        assert cs[i] == init[i];
      }
      if exists i :: 0 <= i < |cs| && e in Contribution(cs[i], ref, phrases) {
        var i :| 0 <= i < |cs| && e in Contribution(cs[i], ref, phrases);
        if i < |cs| - 1 {
          assert init[i] == cs[i];
        }
      }
    }
  }

  /** Every valid event comes from a VEVENT whose start is in the window, and starts
      in the window itself. */
  lemma ValidEventsInWindow(cs: seq<Component>, ref: Reference, phrases: seq<string>)
    ensures forall e :: e in ValidEvents(cs, ref, phrases) ==>
      InWindow(e.startDate, ref) &&
      exists i :: 0 <= i < |cs| && cs[i].kind == VEvent && InWindow(cs[i].start, ref) &&
                  e in Contribution(cs[i], ref, phrases)
  {
    forall e | e in ValidEvents(cs, ref, phrases)
      ensures InWindow(e.startDate, ref) &&
        exists i :: 0 <= i < |cs| && cs[i].kind == VEvent && InWindow(cs[i].start, ref) &&
                    e in Contribution(cs[i], ref, phrases)
    {
      ValidEventsMembers(cs, ref, phrases, e);
      var i :| 0 <= i < |cs| && e in Contribution(cs[i], ref, phrases);
      ContributionMeaning(cs[i], ref, phrases);
    }
  }

  /** A non-recurring VEVENT in the window is among the valid events unless an
      excluded phrase matches it; an excluded or out-of-window one adds nothing, so
      the valid events are exactly those of the other components. */
  lemma {:induction false} SingleAdmission(cs: seq<Component>, ref: Reference, phrases: seq<string>, i: nat)
    requires i < |cs| && cs[i].rrule.None?
    ensures cs[i].kind == VEvent && InWindow(cs[i].start, ref) && !Excluded(cs[i].summary, phrases) ==>
      Single(cs[i], ref) in ValidEvents(cs, ref, phrases)
    ensures !(cs[i].kind == VEvent && InWindow(cs[i].start, ref) && !Excluded(cs[i].summary, phrases)) ==>
      ValidEvents(cs, ref, phrases) == ValidEvents(cs[..i] + cs[i + 1..], ref, phrases)
  {
    ContributionMeaning(cs[i], ref, phrases);
    if cs[i].kind == VEvent && InWindow(cs[i].start, ref) && !Excluded(cs[i].summary, phrases) {
      ValidEventsMembers(cs, ref, phrases, Single(cs[i], ref));
    } else {
      ValidEventsSkip(cs, ref, phrases, i);
    }
  }

  /** Removing a component that contributes nothing does not change the valid events. */
  lemma {:induction false} ValidEventsSkip(cs: seq<Component>, ref: Reference, phrases: seq<string>, i: nat)
    requires i < |cs| && Contribution(cs[i], ref, phrases) == []
    ensures ValidEvents(cs, ref, phrases) == ValidEvents(cs[..i] + cs[i + 1..], ref, phrases)
    decreases |cs|
  {
    var rest := cs[..i] + cs[i + 1..];
    var init := cs[..|cs| - 1];
    RemoveAt(cs, i);
    if i < |cs| - 1 {
      assert init[i] == cs[i];
      ValidEventsSkip(init, ref, phrases, i);
    }
  }

  // ---------------------------------------------------------------------------
  // Sorting and paging
  // ---------------------------------------------------------------------------

  /** validEvents.slice(start, start + pageSize) after the stable sort by start date,
      with start = (page - 1) * pageSize. */
  function PageOf(valid: seq<Event>, page: int, pageSize: int): seq<Event>
  {
    Page(SortBy(valid, StartDate), page, pageSize)
  }

  /** hasMoreEvents = validEvents.length > end. */
  predicate HasMore(total: int, page: int, pageSize: int)
  {
    total > (page - 1) * pageSize + pageSize
  }

  /** For a page number of at least 1 and a non-negative page size, the page is
      exactly elements [(page-1)*pageSize, page*pageSize) of the sorted valid events
      (clipped to their number), so it is sorted and holds at most pageSize events;
      and there are more events exactly when the total exceeds page*pageSize. */
  lemma PageMeaning(valid: seq<Event>, page: int, pageSize: int)
    requires page >= 1 && pageSize >= 0
    ensures var sorted := SortBy(valid, StartDate);
      var n := |sorted|;
      && 0 <= (page - 1) * pageSize <= page * pageSize
      && PageOf(valid, page, pageSize) == sorted[Min((page - 1) * pageSize, n) .. Min(page * pageSize, n)]
      && |PageOf(valid, page, pageSize)| <= pageSize
      && SortedBy(PageOf(valid, page, pageSize), StartDate)
      && (forall e :: e in PageOf(valid, page, pageSize) ==> e in valid)
      && (HasMore(|valid|, page, pageSize) <==> |valid| > page * pageSize)
  {
    var sorted := SortBy(valid, StartDate);
    PageRange(sorted, page, pageSize);
    PageBounds(page, pageSize);
    var start := (page - 1) * pageSize;
    SliceSorted(sorted, start, start + pageSize, StartDate);
    forall e | e in PageOf(valid, page, pageSize) ensures e in valid {
      assert e in multiset(sorted);
    }
  }

  /** Any page of the sorted list is sorted, whatever the page number and size. */
  lemma PageSorted(valid: seq<Event>, page: int, pageSize: int)
    ensures SortedBy(PageOf(valid, page, pageSize), StartDate)
  {
    var start := (page - 1) * pageSize;
    SliceSorted(SortBy(valid, StartDate), start, start + pageSize, StartDate);
  }

  /** Math.ceil(total / pageSize): a count for a non-zero page size, and Infinity or
      NaN (neither a page count) for a page size of zero. */
  datatype PageCount = Pages(count: int) | NotFinite

  function TotalPages(total: nat, pageSize: int): (r: PageCount)
    ensures pageSize > 0 ==> r.Pages? && (r.count - 1) * pageSize < total <= r.count * pageSize
    ensures pageSize == 0 <==> r.NotFinite?
  {
    if pageSize == 0 then NotFinite
    else if pageSize > 0 then
      var q := (total + pageSize - 1) / pageSize;
      assert q * pageSize <= total + pageSize - 1 < q * pageSize + pageSize;
      Pages(q)
    else Pages(-(total / -pageSize))
  }

  /** Page numbers before the last one: page*pageSize stays below the total. */
  lemma EarlierPages(total: nat, pageSize: nat, k: int, page: int)
    requires pageSize > 0 && (k - 1) * pageSize < total && 1 <= page < k
    ensures page * pageSize < total
  {
    assert page * pageSize <= (k - 1) * pageSize;
  }

  /** The metadata's page count is exactly what it takes to read every event: pages
      1 to totalPages hold all sorted events, and only the last of them has no more
      events after it. */
  lemma PageCountCovers(valid: seq<Event>, pageSize: nat)
    requires pageSize > 0
    ensures var k := TotalPages(|valid|, pageSize).count;
      && k >= 0
      && PagesUpTo(SortBy(valid, StartDate), pageSize, k) == SortBy(valid, StartDate)
      && (forall page :: 1 <= page < k ==> HasMore(|valid|, page, pageSize))
      && (k >= 1 ==> !HasMore(|valid|, k, pageSize))
  {
    var k := TotalPages(|valid|, pageSize).count;
    assert (k - 1) * pageSize < |valid| <= k * pageSize;
    assert k >= 0;
    var sorted := SortBy(valid, StartDate);
    PagesUpToPrefix(sorted, pageSize, k);
    assert Min(k * pageSize, |sorted|) == |sorted|;
    forall page | 1 <= page < k ensures HasMore(|valid|, page, pageSize) {
      EarlierPages(|valid|, pageSize, k, page);
      PageBounds(page, pageSize);
    }
    if k >= 1 {
      PageBounds(k, pageSize);
    }
  }
}
