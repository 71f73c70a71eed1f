/** The data side of the MMM-MyCalendar front-end module (MMM-MyCalendar.js): the
    calendar configuration and its lookups, the title helpers, the handler of the
    node helper's socket notifications and the two event lists it builds, one for its
    own display and one broadcast to other modules. Rendering is not modelled. */
module MyCalendar {
  import opened Seqs
  import opened Text
  import opened Normalizer
  import Fetcher
  import Base64

  // ---------------------------------------------------------------------------
  // Configuration
  // ---------------------------------------------------------------------------

  /** One entry of config.calendars. An optional field that is None is absent from the
      entry. `props` holds its other own properties (symbol, color,
      repeatingCountTitle, ...), all strings, in the order they were written. */
  datatype CalendarConfig = CalendarConfig(
    url: string,
    user: Option<string>,
    pass: Option<string>,
    auth: Option<Fetcher.Auth>,
    maximumEntries: Option<int>,
    maximumNumberOfDays: Option<int>,
    props: Entries<string>)

  /** The module options this logic reads. */
  datatype Settings = Settings(
    maximumEntries: int,
    maximumNumberOfDays: int,
    fetchInterval: int,
    maxTitleLength: int,
    hidePrivate: bool,
    broadcastEvents: bool,
    titleReplace: Entries<string>)

  /** The module defaults for those options. */
  const Defaults := Settings(10, 365, 5 * 60 * 1000, 25, false, true,
                             [("De verjaardag van ", ""), ("'s birthday", "")])

  /** The one default calendar. */
  const DefaultCalendars := [CalendarConfig("http://www.calendarlabs.com/templates/ical/US-Holidays.ics",
                                            None, None, None, None, None, [("symbol", "calendar")])]

  /** hasCalendarURL(url): some configured calendar has exactly this url. */
  function HasCalendarURL(calendars: seq<CalendarConfig>, url: string): (r: bool)
    ensures r <==> exists i :: 0 <= i < |calendars| && calendars[i].url == url
  {
    if calendars == [] then false
    else if calendars[0].url == url then true
    else
      var r := HasCalendarURL(calendars[1..], url);
      assert r ==> exists i :: 0 <= i < |calendars| && calendars[i].url == url by {
        if r {
          var i :| 0 <= i < |calendars| - 1 && calendars[1..][i].url == url;
          assert calendars[i + 1].url == url;
        }
      }
      assert (exists i :: 0 <= i < |calendars| && calendars[i].url == url) ==> r by {
        if exists i :: 0 <= i < |calendars| && calendars[i].url == url {
          var i :| 0 <= i < |calendars| && calendars[i].url == url;
          assert calendars[1..][i - 1].url == url;
        }
      }
      r
  }

  /** A value a calendar entry can hold under one of its own properties. */
  datatype PropertyValue = StringValue(text: string) | NumberValue(number: int) | AuthValue(auth: Fetcher.Auth)

  /** The own keys of a calendar entry, as a collection: the fields that are set and
      the display properties; their order is not modelled. An optional field that is
      None is absent. */
  function OwnKeys(c: CalendarConfig): seq<string>
  {
    ["url"]
      + (if c.user.Some? then ["user"] else [])
      + (if c.pass.Some? then ["pass"] else [])
      + (if c.auth.Some? then ["auth"] else [])
      + (if c.maximumEntries.Some? then ["maximumEntries"] else [])
      + (if c.maximumNumberOfDays.Some? then ["maximumNumberOfDays"] else [])
      + Keys(c.props)
  }

  /** calendar.hasOwnProperty(property) and calendar[property]: a field when the name is
      one of the fields and it is set, otherwise the entry of `props`. */
  function OwnProperty(c: CalendarConfig, property: string): (r: Option<PropertyValue>)
    ensures property == "url" ==> r == Some(StringValue(c.url))
    ensures property == "user" && c.user.Some? ==> r == Some(StringValue(c.user.value))
    ensures property == "pass" && c.pass.Some? ==> r == Some(StringValue(c.pass.value))
    ensures property == "auth" && c.auth.Some? ==> r == Some(AuthValue(c.auth.value))
    ensures property == "maximumEntries" && c.maximumEntries.Some? ==> r == Some(NumberValue(c.maximumEntries.value))
    ensures property == "maximumNumberOfDays" && c.maximumNumberOfDays.Some? ==> r == Some(NumberValue(c.maximumNumberOfDays.value))
    ensures property !in FieldNames ==> (r.Some? <==> property in Keys(c.props))
    ensures property !in FieldNames && r.Some? ==> r.value.StringValue? && Get(c.props, property) == Some(r.value.text)
  {
    if property == "url" then Some(StringValue(c.url))
    else if property == "user" && c.user.Some? then Some(StringValue(c.user.value))
    else if property == "pass" && c.pass.Some? then Some(StringValue(c.pass.value))
    else if property == "auth" && c.auth.Some? then Some(AuthValue(c.auth.value))
    else if property == "maximumEntries" && c.maximumEntries.Some? then Some(NumberValue(c.maximumEntries.value))
    else if property == "maximumNumberOfDays" && c.maximumNumberOfDays.Some? then Some(NumberValue(c.maximumNumberOfDays.value))
    else match Get(c.props, property)
      case Some(v) => Some(StringValue(v))
      case None => None
  }

  /** hasOwnProperty holds exactly for the entry's own keys. */
  lemma OwnPropertyKeys(c: CalendarConfig, property: string)
    ensures OwnProperty(c, property).Some? <==> property in OwnKeys(c)
  {
    var f1 := ["url"] + (if c.user.Some? then ["user"] else []);
    var f2 := f1 + (if c.pass.Some? then ["pass"] else []);
    var f3 := f2 + (if c.auth.Some? then ["auth"] else []);
    var f4 := f3 + (if c.maximumEntries.Some? then ["maximumEntries"] else []);
    var f5 := f4 + (if c.maximumNumberOfDays.Some? then ["maximumNumberOfDays"] else []);
    assert OwnKeys(c) == f5 + Keys(c.props);
    assert property in f1 <==> property == "url" || (property == "user" && c.user.Some?);
    assert property in f2 <==> property in f1 || (property == "pass" && c.pass.Some?);
    assert property in f3 <==> property in f2 || (property == "auth" && c.auth.Some?);
    assert property in f4 <==> property in f3 || (property == "maximumEntries" && c.maximumEntries.Some?);
    assert property in f5 <==> property in f4 || (property == "maximumNumberOfDays" && c.maximumNumberOfDays.Some?);
    assert property in OwnKeys(c) <==> property in f5 || property in Keys(c.props);
  }

  /** The names of the entry's fields. */
  const FieldNames := {"url", "user", "pass", "auth", "maximumEntries", "maximumNumberOfDays"}

  /** The calendar at i has the url and the property. */
  predicate Provides(calendars: seq<CalendarConfig>, i: int, url: string, property: string)
  {
    0 <= i < |calendars| && calendars[i].url == url && OwnProperty(calendars[i], property).Some?
  }

  /** The first calendar at or after k that has the url and the property, or -1. */
  function FirstProvider(calendars: seq<CalendarConfig>, url: string, property: string, k: nat): (r: int)
    requires k <= |calendars|
    ensures r == -1 || k <= r < |calendars|
    ensures r >= 0 ==> Provides(calendars, r, url, property)
    ensures r >= 0 ==> forall j :: k <= j < r ==> !Provides(calendars, j, url, property)
    ensures r == -1 ==> forall i :: k <= i ==> !Provides(calendars, i, url, property)
    decreases |calendars| - k
  {
    if k == |calendars| then -1
    else if Provides(calendars, k, url, property) then k
    else FirstProvider(calendars, url, property, k + 1)
  }

  /** getCalendarProperty(url, property, defaultValue): the property of the first
      calendar that has this url and the property as its own, else the default. */
  function GetCalendarProperty(calendars: seq<CalendarConfig>, url: string, property: string, defaultValue: PropertyValue): (r: PropertyValue)
    ensures (forall i :: !Provides(calendars, i, url, property)) ==> r == defaultValue
    ensures forall i :: Provides(calendars, i, url, property) && (forall j :: 0 <= j < i ==> !Provides(calendars, j, url, property)) ==>
      OwnProperty(calendars[i], property) == Some(r)
  {
    var i := FirstProvider(calendars, url, property, 0);
    if i < 0 then defaultValue else OwnProperty(calendars[i], property).value
  }

  /** Asking for "url" with a configured url returns that url, never the default. */
  lemma UrlPropertyFound(calendars: seq<CalendarConfig>, i: int, defaultValue: PropertyValue)
    requires 0 <= i < |calendars|
    ensures GetCalendarProperty(calendars, calendars[i].url, "url", defaultValue) == StringValue(calendars[i].url)
  {
    var url := calendars[i].url;
    assert Provides(calendars, i, url, "url");
    var f := FirstProvider(calendars, url, "url", 0);
    assert Provides(calendars, f, url, "url");
  }

  /** `x || d` for a number that may be undefined: undefined and 0 fall back to d. */
  function OrDefault(x: Option<int>, d: int): (r: int)
    ensures x.Some? && x.value != 0 ==> r == x.value
    ensures x.None? || x.value == 0 ==> r == d
  {
    if x.Some? && x.value != 0 then x.value else d
  }

  const WebcalScheme := "webcal://"
  const HttpScheme := "http://"

  /** What loadCalendars does to one calendar entry: the first "webcal://" in its url
      becomes "http://", and when both user and pass are set an auth object with them
      replaces auth; otherwise auth stays as configured. */
  function Prepared(c: CalendarConfig): (r: CalendarConfig)
    ensures r.url == ReplaceFirst(c.url, WebcalScheme, HttpScheme)
    ensures Truthy(c.user) && Truthy(c.pass) ==> r.auth == Some(Fetcher.Auth(None, c.user, c.pass))
    ensures !(Truthy(c.user) && Truthy(c.pass)) ==> r.auth == c.auth
    ensures r.(url := c.url, auth := c.auth) == c
  {
    var url := ReplaceFirst(c.url, WebcalScheme, HttpScheme);
    c.(url := url, auth := if Truthy(c.user) && Truthy(c.pass) then Some(Fetcher.Auth(None, c.user, c.pass)) else c.auth)
  }

  /** A webcal:// url becomes the same address under http://. */
  lemma WebcalRewrite(c: CalendarConfig)
    requires |c.url| >= |WebcalScheme| && c.url[..|WebcalScheme|] == WebcalScheme
    ensures Prepared(c).url == HttpScheme + c.url[|WebcalScheme|..]
  {
    assert OccursAt(c.url, WebcalScheme, 0);
    assert c.url[..0] == [];
  }

  /** The auth object loadCalendars builds sends user and pass as Basic credentials
      that decode back to both. */
  lemma PreparedAuthIsBasic(c: CalendarConfig)
    requires Truthy(c.user) && Truthy(c.pass)
    ensures Prepared(c).auth.Some?
    ensures Fetcher.AuthorizationHeader(Prepared(c).auth.value) ==
      "Basic " + Fetcher.BasicCredentials(c.user.value, c.pass.value)
    ensures var text := c.user.value + ":" + c.pass.value;
      && Base64.Decode(Fetcher.BasicCredentials(c.user.value, c.pass.value)).Some?
      && Base64.Utf8Decode(Base64.Decode(Fetcher.BasicCredentials(c.user.value, c.pass.value)).value) == Some(text)
  {
    Base64.TextRoundTrip(c.user.value + ":" + c.pass.value);
  }

  /** The ADD_CALENDAR payload addCalendar sends to the node helper. */
  datatype AddCalendar = AddCalendar(
    url: string, maximumEntries: int, maximumNumberOfDays: int, fetchInterval: int, auth: Option<Fetcher.Auth>)

  /** addCalendar(url, auth, calendarConfig): a per-calendar limit that is undefined or
      0 falls back to the module's. */
  function AddPayload(settings: Settings, c: CalendarConfig): (r: AddCalendar)
    ensures r.url == c.url && r.auth == c.auth && r.fetchInterval == settings.fetchInterval
    ensures r.maximumEntries == OrDefault(c.maximumEntries, settings.maximumEntries)
    ensures r.maximumNumberOfDays == OrDefault(c.maximumNumberOfDays, settings.maximumNumberOfDays)
  {
    AddCalendar(c.url, OrDefault(c.maximumEntries, settings.maximumEntries),
                OrDefault(c.maximumNumberOfDays, settings.maximumNumberOfDays), settings.fetchInterval, c.auth)
  }

  /** The ADD_CALENDAR payloads for a list of prepared calendars, in order. */
  function Payloads(settings: Settings, cs: seq<CalendarConfig>): (r: seq<AddCalendar>)
    ensures |r| == |cs| && forall i :: 0 <= i < |cs| ==> r[i] == AddPayload(settings, cs[i])
  {
    seq(|cs|, i requires 0 <= i < |cs| => AddPayload(settings, cs[i]))
  }

  // ---------------------------------------------------------------------------
  // Title helpers
  // ---------------------------------------------------------------------------

  const Ellipsis := "&hellip;"

  /** shorten(string, maxLength) */
  function Shorten(s: string, maxLength: int): (r: string)
    ensures |s| <= maxLength ==> r == s
    ensures |s| > maxLength && maxLength >= 0 ==> r == s[..maxLength] + Ellipsis
    ensures |s| > maxLength && maxLength < 0 ==> r == s[..RelativeIndex(maxLength, |s|)] + Ellipsis
  {
    if |s| > maxLength then Slice(s, 0, maxLength) + Ellipsis else s
  }

  /** A shortened title is never longer than the limit plus the ellipsis, keeps the
      first maxLength characters, and shortening it again changes nothing. */
  lemma ShortenBound(s: string, maxLength: nat)
    ensures |Shorten(s, maxLength)| <= if |s| <= maxLength then |s| else maxLength + |Ellipsis|
    ensures |s| > maxLength ==> Shorten(s, maxLength)[..maxLength] == s[..maxLength]
    ensures Shorten(Shorten(s, maxLength), maxLength) == Shorten(s, maxLength)
  {
    if |s| > maxLength {
      var t := s[..maxLength] + Ellipsis;
      assert Shorten(s, maxLength) == t;
      assert t[..maxLength] == s[..maxLength];
    }
  }

  /** capFirst(string): the first character upper-cased, the rest unchanged. */
  function CapFirst(s: string): (r: string)
    ensures |r| == |s|
    ensures s != [] ==> r[0] == UpperChar(s[0]) && r[1..] == s[1..]
  {
    if s == [] then "" else [UpperChar(s[0])] + s[1..]
  }

  /** Capitalising twice is capitalising once. */
  lemma CapFirstIdempotent(s: string)
    ensures CapFirst(CapFirst(s)) == CapFirst(s)
  {
    if s != [] {
      assert CapFirst(CapFirst(s))[1..] == CapFirst(s)[1..];
    }
  }

  predicate IsFlag(c: char)
  {
    c == 'g' || c == 'i' || c == 'm'
  }

  /** The characters a regular expression's `.` does not match. */
  predicate IsLineTerminator(c: char)
  {
    c == '\n' || c == '\r' || c == '\U{2028}' || c == '\U{2029}'
  }

  /** The needle matches /^\/(.+)\/([gim]*)$/ with the closing slash at p: the
      pattern part between the slashes is non-empty and free of line terminators. */
  predicate RegexSplit(needle: string, p: int)
  {
    && 2 <= p < |needle| && needle[0] == '/' && needle[p] == '/'
    && (forall k :: 0 < k < p ==> !IsLineTerminator(needle[k]))
    && (forall k :: p < k < |needle| ==> IsFlag(needle[k]))
  }

  /** The index of the last '/' of s strictly before `end`, or -1. */
  function LastSlashBefore(s: string, end: nat): (r: int)
    requires end <= |s|
    ensures -1 <= r < end
    ensures r >= 0 ==> s[r] == '/'
    ensures forall k :: r < k < end ==> s[k] != '/'
  {
    if end == 0 then -1 else if s[end - 1] == '/' then end - 1 else LastSlashBefore(s, end - 1)
  }

  /** Where a title-replace needle written as a regular expression literal closes:
      the position of the slash before its flags, or None for a plain string needle. */
  function RegexClose(needle: string): (r: Option<nat>)
    ensures r.Some? ==> RegexSplit(needle, r.value)
    ensures r.None? ==> forall p :: !RegexSplit(needle, p)
  {
    var p := LastSlashBefore(needle, |needle|);
    if && p >= 2 && needle[0] == '/'
       && (forall k :: 0 < k < p ==> !IsLineTerminator(needle[k]))
       && (forall k :: p < k < |needle| ==> IsFlag(needle[k]))
    then Some(p)
    else
      assert forall q :: p < q < |needle| ==> !RegexSplit(needle, q);
      assert forall q :: 0 <= q < p ==> !RegexSplit(needle, q) by {
        forall q | 0 <= q < p ensures !RegexSplit(needle, q) {
          assert q < p < |needle| && !IsFlag(needle[p]);
        }
      }
      None
  }

  /** A needle whose pattern part spans a line break is a plain string needle. */
  lemma MultilineNeedleIsPlain()
    ensures RegexClose("/a\nb/").None?
    ensures RegexClose("/a b/gi") == Some(4)
  {
    assert LastSlashBefore("/a\nb/", 5) == 4;
    assert IsLineTerminator("/a\nb/"[2]);
    assert LastSlashBefore("/a b/gi", 7) == 4;
  }

  /** A needle splits at most one way, so a regular expression needle has a single
      pattern and flag string. */
  lemma RegexSplitUnique(needle: string, p: int, q: int)
    requires RegexSplit(needle, p) && RegexSplit(needle, q)
    ensures p == q
  {
    assert !IsFlag(needle[p]) && !IsFlag(needle[q]);
  }

  /** One replacement of titleTransform: a string needle replaces its first occurrence;
      a regular expression needle is handed, as pattern and flags, to `regex`, which
      stands for String.prototype.replace with a RegExp. */
  function ReplaceOne(title: string, needle: string, replacement: string,
                      regex: (string, string, string, string) -> string): string
  {
    match RegexClose(needle)
      case Some(p) => regex(needle[1..p], needle[p + 1..], title, replacement)
      case None => ReplaceFirst(title, needle, replacement)
  }

  /** The replacements of config.titleReplace, applied in the table's order. */
  function ReplaceAll(title: string, table: Entries<string>, regex: (string, string, string, string) -> string): string
    decreases |table|
  {
    if table == [] then title
    else ReplaceAll(ReplaceOne(title, table[0].0, table[0].1, regex), table[1..], regex)
  }

  /** A table of string needles none of which occur leaves the title as it is. */
  lemma {:induction false} ReplaceAllAbsent(title: string, table: Entries<string>, regex: (string, string, string, string) -> string)
    requires forall i :: 0 <= i < |table| ==> RegexClose(table[i].0).None?
    requires forall i, k :: 0 <= i < |table| ==> !OccursAt(title, table[i].0, k)
    ensures ReplaceAll(title, table, regex) == title
    decreases |table|
  {
    if table != [] {
      assert RegexClose(table[0].0).None?;
      assert ReplaceOne(title, table[0].0, table[0].1, regex) == title;
      forall i, k | 0 <= i < |table[1..]| ensures !OccursAt(title, table[1..][i].0, k) {
        assert table[1..][i] == table[i + 1];
      }
      ReplaceAllAbsent(title, table[1..], regex);
    }
  }

  /** The default table turns "Anna's birthday" into "Anna". */
  lemma DefaultTitleReplace(regex: (string, string, string, string) -> string)
    ensures ReplaceAll("Anna's birthday", Defaults.titleReplace, regex) == "Anna"
  {
    var t := "Anna's birthday";
    assert RegexClose("De verjaardag van ").None?;
    assert RegexClose("'s birthday").None?;
    forall k ensures !OccursAt(t, "De verjaardag van ", k) {
    }
    assert ReplaceOne(t, "De verjaardag van ", "", regex) == t;
    assert OccursAt(t, "'s birthday", 4) by {
      assert t[4..15] == "'s birthday";
    }
    forall k | 0 <= k < 4 ensures !OccursAt(t, "'s birthday", k) {
      assert t[k] != '\'';
    }
    assert ReplaceOne(t, "'s birthday", "", regex) == "Anna" by {
      assert t[..4] + "" + t[15..] == "Anna";
    }
    assert Defaults.titleReplace[1..] == [("'s birthday", "")];
  }

  // ---------------------------------------------------------------------------
  // Events as the front end holds them
  // ---------------------------------------------------------------------------

  /** An event received from the node helper, with the url createEventList attaches. */
  datatype Shown = Shown(event: Event, url: Option<string>)

  function ShownStart(x: Shown): int
  {
    x.event.startDate
  }

  const Private := "PRIVATE"
  const DayMillis := 24 * 60 * 60 * 1000

  /** hidePrivate is set and the event's class is PRIVATE: createEventList skips it
      and leaves it as it is. */
  predicate Hidden(hidePrivate: bool, x: Shown)
  {
    hidePrivate && x.event.visibility == Private
  }

  /** createEventList's update of one event of calendar `key`: url set to the key and
      today recomputed as the start lying in [todayTime, todayTime + one day). */
  function Tag(key: string, x: Shown, todayTime: int): (r: Shown)
    ensures r.url == Some(key)
    ensures r.event.today <==> todayTime <= x.event.startDate < todayTime + DayMillis
    ensures r.event.(today := x.event.today) == x.event
  {
    Shown(x.event.(today := todayTime <= x.event.startDate < todayTime + DayMillis), Some(key))
  }

  /** A calendar's events after createEventList has visited them (the events are
      updated in place, so calendarData sees the change). */
  function TagCalendar(key: string, xs: seq<Shown>, hidePrivate: bool, todayTime: int): (r: seq<Shown>)
    ensures |r| == |xs|
    ensures forall j :: 0 <= j < |xs| ==> r[j] == if Hidden(hidePrivate, xs[j]) then xs[j] else Tag(key, xs[j], todayTime)
  {
    seq(|xs|, j requires 0 <= j < |xs| => if Hidden(hidePrivate, xs[j]) then xs[j] else Tag(key, xs[j], todayTime))
  }

  /** The events of one calendar createEventList pushes, in order. */
  function Collect(key: string, xs: seq<Shown>, hidePrivate: bool, todayTime: int): seq<Shown>
  {
    if xs == [] then []
    else
      var last := xs[|xs| - 1];
      Collect(key, xs[..|xs| - 1], hidePrivate, todayTime) + (if Hidden(hidePrivate, last) then [] else [Tag(key, last, todayTime)])
  }

  /** Every pushed event is a visible event of that calendar, tagged with its key. */
  lemma {:induction false} CollectMembers(key: string, xs: seq<Shown>, hidePrivate: bool, todayTime: int, y: Shown)
    requires y in Collect(key, xs, hidePrivate, todayTime)
    ensures exists j :: 0 <= j < |xs| && !Hidden(hidePrivate, xs[j]) && y == Tag(key, xs[j], todayTime)
  {
    var init := xs[..|xs| - 1];
    if y in Collect(key, init, hidePrivate, todayTime) {
      CollectMembers(key, init, hidePrivate, todayTime, y);
      var j :| 0 <= j < |init| && !Hidden(hidePrivate, init[j]) && y == Tag(key, init[j], todayTime);
      assert xs[j] == init[j];
    }
  }

  /** Every visible event of the calendar is pushed, tagged with its key. */
  lemma {:induction false} CollectComplete(key: string, xs: seq<Shown>, hidePrivate: bool, todayTime: int, j: int)
    requires 0 <= j < |xs| && !Hidden(hidePrivate, xs[j])
    ensures Tag(key, xs[j], todayTime) in Collect(key, xs, hidePrivate, todayTime)
    decreases |xs|
  {
    var init := xs[..|xs| - 1];
    if j < |xs| - 1 {
      assert init[j] == xs[j];
      CollectComplete(key, init, hidePrivate, todayTime, j);
    }
  }

  /** All events pushed, calendar by calendar in calendarData's key order. */
  function CollectAll(data: Entries<seq<Shown>>, hidePrivate: bool, todayTime: int): seq<Shown>
  {
    if data == [] then []
    else
      var last := data[|data| - 1];
      CollectAll(data[..|data| - 1], hidePrivate, todayTime) + Collect(last.0, last.1, hidePrivate, todayTime)
  }

  /** calendarData after createEventList. */
  function TagAll(data: Entries<seq<Shown>>, hidePrivate: bool, todayTime: int): (r: Entries<seq<Shown>>)
    ensures |r| == |data|
    ensures forall i :: 0 <= i < |data| ==> r[i] == (data[i].0, TagCalendar(data[i].0, data[i].1, hidePrivate, todayTime))
  {
    seq(|data|, i requires 0 <= i < |data| => (data[i].0, TagCalendar(data[i].0, data[i].1, hidePrivate, todayTime)))
  }

  /** One more calendar visited by createEventList's loop. */
  lemma TagAllSnoc(data: Entries<seq<Shown>>, c: int, hidePrivate: bool, todayTime: int)
    requires 0 <= c < |data|
    ensures CollectAll(data[..c + 1], hidePrivate, todayTime)
            == CollectAll(data[..c], hidePrivate, todayTime) + Collect(data[c].0, data[c].1, hidePrivate, todayTime)
    ensures TagAll(data[..c + 1], hidePrivate, todayTime)
            == TagAll(data[..c], hidePrivate, todayTime) + [(data[c].0, TagCalendar(data[c].0, data[c].1, hidePrivate, todayTime))]
  {
    assert data[..c + 1][..c] == data[..c];
  }

  /** The list createEventList returns: the pushed events sorted by start, then
      events.slice(0, maximumEntries). */
  function EventList(data: Entries<seq<Shown>>, hidePrivate: bool, todayTime: int, maximumEntries: int): seq<Shown>
  {
    Slice(SortBy(CollectAll(data, hidePrivate, todayTime), ShownStart), 0, maximumEntries)
  }

  /** y is event j of calendar i, visible and tagged by createEventList. */
  ghost predicate TaggedFrom(data: Entries<seq<Shown>>, hidePrivate: bool, todayTime: int, y: Shown)
  {
    exists i, j :: 0 <= i < |data| && 0 <= j < |data[i].1| && !Hidden(hidePrivate, data[i].1[j]) && y == Tag(data[i].0, data[i].1[j], todayTime)
  }

  /** Each event of the list belongs to a calendar of calendarData, carries that
      calendar's key as its url, and is not private when private events are hidden. */
  lemma {:induction false} CollectAllMembers(data: Entries<seq<Shown>>, hidePrivate: bool, todayTime: int, y: Shown)
    requires y in CollectAll(data, hidePrivate, todayTime)
    ensures TaggedFrom(data, hidePrivate, todayTime, y)
  {
    var init := data[..|data| - 1];
    var last := data[|data| - 1];
    if y in CollectAll(init, hidePrivate, todayTime) {
      CollectAllMembers(init, hidePrivate, todayTime, y);
      var i, j :| 0 <= i < |init| && 0 <= j < |init[i].1| && !Hidden(hidePrivate, init[i].1[j]) &&
        y == Tag(init[i].0, init[i].1[j], todayTime);
      assert data[i] == init[i];
    } else {
      CollectMembers(last.0, last.1, hidePrivate, todayTime, y);
      var j :| 0 <= j < |last.1| && !Hidden(hidePrivate, last.1[j]) && y == Tag(last.0, last.1[j], todayTime);
      assert data[|data| - 1] == last;
    }
  }

  /** Conversely, every visible event of every calendar is pushed, tagged. */
  lemma {:induction false} CollectAllComplete(data: Entries<seq<Shown>>, hidePrivate: bool, todayTime: int, i: int, j: int)
    requires 0 <= i < |data| && 0 <= j < |data[i].1| && !Hidden(hidePrivate, data[i].1[j])
    ensures Tag(data[i].0, data[i].1[j], todayTime) in CollectAll(data, hidePrivate, todayTime)
    decreases |data|
  {
    var init := data[..|data| - 1];
    var last := data[|data| - 1];
    if i < |data| - 1 {
      assert init[i] == data[i];
      CollectAllComplete(init, hidePrivate, todayTime, i, j);
    } else {
      CollectComplete(last.0, last.1, hidePrivate, todayTime, j);
    }
  }

  /** The pushed events are exactly the visible, tagged events of calendarData. */
  lemma CollectAllExactly(data: Entries<seq<Shown>>, hidePrivate: bool, todayTime: int, y: Shown)
    ensures y in CollectAll(data, hidePrivate, todayTime) <==> TaggedFrom(data, hidePrivate, todayTime, y)
  {
    if y in CollectAll(data, hidePrivate, todayTime) {
      CollectAllMembers(data, hidePrivate, todayTime, y);
    }
    if TaggedFrom(data, hidePrivate, todayTime, y) {
      var i, j :| 0 <= i < |data| && 0 <= j < |data[i].1| && !Hidden(hidePrivate, data[i].1[j]) &&
        y == Tag(data[i].0, data[i].1[j], todayTime);
      CollectAllComplete(data, hidePrivate, todayTime, i, j);
    }
  }

  /** The list createEventList returns is sorted by start, holds at most
      maximumEntries events (for a non-negative maximumEntries), has no private
      event when hidePrivate is set, and tags each event with the key of the
      calendar it came from. */
  lemma EventListMeaning(data: Entries<seq<Shown>>, hidePrivate: bool, todayTime: int, maximumEntries: int)
    ensures var r := EventList(data, hidePrivate, todayTime, maximumEntries);
      && SortedBy(r, ShownStart)
      && (maximumEntries >= 0 ==> |r| <= maximumEntries)
      && (forall y :: y in r ==> !(hidePrivate && y.event.visibility == Private))
      && (forall y :: y in r ==> TaggedFrom(data, hidePrivate, todayTime, y))
      && (forall y :: y in r ==> y.url.Some? && y.url.value in Keys(data))
  {
    var all := CollectAll(data, hidePrivate, todayTime);
    var sorted := SortBy(all, ShownStart);
    SliceSorted(sorted, 0, maximumEntries, ShownStart);
    forall y | y in EventList(data, hidePrivate, todayTime, maximumEntries)
      ensures y in all
    {
      assert y in multiset(sorted);
    }
    forall y | y in all
      ensures !(hidePrivate && y.event.visibility == Private)
      ensures TaggedFrom(data, hidePrivate, todayTime, y)
      ensures y.url.Some? && y.url.value in Keys(data)
    {
      CollectAllMembers(data, hidePrivate, todayTime, y);
      var i, j :| 0 <= i < |data| && 0 <= j < |data[i].1| && !Hidden(hidePrivate, data[i].1[j]) && y == Tag(data[i].0, data[i].1[j], todayTime);
      assert Keys(data)[i] == data[i].0;
    }
  }

  /** Nothing visible is lost but to the maximumEntries cut: the list holds
      min(maximumEntries, number of visible events) events, every visible event left
      out starts no earlier than every event kept, and with room for all of them every
      visible event is kept, as often as it was pushed. */
  lemma EventListComplete(data: Entries<seq<Shown>>, hidePrivate: bool, todayTime: int, maximumEntries: int)
    ensures var r := EventList(data, hidePrivate, todayTime, maximumEntries);
      var all := CollectAll(data, hidePrivate, todayTime);
      && (maximumEntries >= 0 ==> |r| == Min(maximumEntries, |all|))
      && (forall y, z :: y in r && TaggedFrom(data, hidePrivate, todayTime, z) && z !in r ==> ShownStart(y) <= ShownStart(z))
      && (maximumEntries >= |all| ==> multiset(r) == multiset(all))
      && (maximumEntries >= |all| ==> forall z :: TaggedFrom(data, hidePrivate, todayTime, z) ==> z in r)
  {
    var all := CollectAll(data, hidePrivate, todayTime);
    var sorted := SortBy(all, ShownStart);
    var r := EventList(data, hidePrivate, todayTime, maximumEntries);
    SlicePrefix(sorted, maximumEntries, ShownStart);
    forall z | TaggedFrom(data, hidePrivate, todayTime, z) ensures z in sorted {
      CollectAllExactly(data, hidePrivate, todayTime, z);
      assert z in multiset(sorted);
    }
    if maximumEntries >= |all| {
      assert r == sorted;
    }
  }

  /** The events of every calendar, in calendarData's key order, without their url:
      the clones broadcastEvents pushes. */
  function Flatten(data: Entries<seq<Shown>>): seq<Event>
  {
    if data == [] then [] else Flatten(data[..|data| - 1]) + Plain(data[|data| - 1].1)
  }

  function Plain(xs: seq<Shown>): (r: seq<Event>)
    ensures |r| == |xs| && forall j :: 0 <= j < |xs| ==> r[j] == xs[j].event
  {
    seq(|xs|, j requires 0 <= j < |xs| => xs[j].event)
  }

  /** The list broadcastEvents sends. */
  function BroadcastList(data: Entries<seq<Shown>>): seq<Event>
  {
    SortBy(Flatten(data), StartDate)
  }

  /** broadcastEvents sends every event of every calendar exactly once (the same
      multiset), sorted by start, and keeps events that start together in calendar
      order; the events carry no url. */
  lemma BroadcastMeaning(data: Entries<seq<Shown>>)
    ensures multiset(BroadcastList(data)) == multiset(Flatten(data))
    ensures SortedBy(BroadcastList(data), StartDate)
    ensures IsStableSortOf(BroadcastList(data), Flatten(data), StartDate)
  {
    StableSortUnique(BroadcastList(data), Flatten(data), StartDate);
  }

  // ---------------------------------------------------------------------------
  // Socket notifications
  // ---------------------------------------------------------------------------

  /** A socket notification from the node helper. `page` is undefined when absent. */
  datatype Notification =
    | CalendarEvents(url: string, page: Option<int>, events: seq<Event>)
    | FetchError(url: string)
    | IncorrectUrl(url: string)
    | Unknown(name: string)

  /** The module's state that the handler changes: calendarData, pendingFetches,
      loaded, and the CALENDAR_EVENTS lists broadcast so far. */
  datatype FrontState = FrontState(
    calendarData: Entries<seq<Shown>>,
    pendingFetches: int,
    loaded: bool,
    broadcasts: seq<seq<Event>>)

  function Received(events: seq<Event>): (r: seq<Shown>)
    ensures |r| == |events| && forall j :: 0 <= j < |events| ==> r[j] == Shown(events[j], None)
  {
    seq(|events|, j requires 0 <= j < |events| => Shown(events[j], None))
  }

  /** The events for calendar `url` merged into calendarData: appended after the
      ones held for a page after the first, otherwise replacing them. */
  function Merged(data: Entries<seq<Shown>>, url: string, page: Option<int>, events: seq<Event>): seq<Shown>
  {
    var existing := Get(data, url);
    if page.Some? && page.value > 1 then (if existing.Some? then existing.value else []) + Received(events)
    else Received(events)
  }

  /** CALENDAR_EVENTS for a configured url. */
  function StoreEvents(broadcast: bool, s: FrontState, url: string, page: Option<int>, events: seq<Event>): FrontState
  {
    var data := Put(s.calendarData, url, Merged(s.calendarData, url, page, events));
    var pending := s.pendingFetches - 1;
    var t := s.(calendarData := data, pendingFetches := pending, loaded := if pending == 0 then true else s.loaded);
    if broadcast then t.(broadcasts := t.broadcasts + [BroadcastList(data)]) else t
  }

  /** socketNotificationReceived(notification, payload) */
  function Receive(calendars: seq<CalendarConfig>, broadcast: bool, s: FrontState, n: Notification): FrontState
  {
    match n
    case CalendarEvents(url, page, events) =>
      if !HasCalendarURL(calendars, url) then s else StoreEvents(broadcast, s, url, page, events)
    case FetchError(_) => s.(pendingFetches := s.pendingFetches - 1)
    case IncorrectUrl(_) => s.(pendingFetches := s.pendingFetches - 1)
    case Unknown(_) => s
  }

  /** Whether a notification counts one pending fetch down. */
  predicate Settles(calendars: seq<CalendarConfig>, n: Notification)
  {
    (n.CalendarEvents? && HasCalendarURL(calendars, n.url)) || n.FetchError? || n.IncorrectUrl?
  }

  /** One notification: events for a configured url replace that calendar's list, or
      extend it for a page after the first; events for any other url change nothing;
      every settling notification takes one from pendingFetches; loaded is set only
      by events that bring the count to 0, and never cleared. */
  lemma ReceiveMeaning(calendars: seq<CalendarConfig>, broadcast: bool, s: FrontState, n: Notification)
    ensures var t := Receive(calendars, broadcast, s, n);
      && t.pendingFetches == s.pendingFetches - (if Settles(calendars, n) then 1 else 0)
      && (s.loaded ==> t.loaded)
      && (t.loaded && !s.loaded ==> n.CalendarEvents? && HasCalendarURL(calendars, n.url) && t.pendingFetches == 0)
      && (!(n.CalendarEvents? && HasCalendarURL(calendars, n.url)) ==> t.calendarData == s.calendarData && t.broadcasts == s.broadcasts)
      && (n.CalendarEvents? && HasCalendarURL(calendars, n.url) ==>
            && Get(t.calendarData, n.url) == Some(
                 if n.page.Some? && n.page.value > 1 && Get(s.calendarData, n.url).Some?
                 then Get(s.calendarData, n.url).value + Received(n.events)
                 else Received(n.events))
            && (forall u :: u != n.url ==> Get(t.calendarData, u) == Get(s.calendarData, u))
            && t.broadcasts == s.broadcasts + (if broadcast then [BroadcastList(t.calendarData)] else []))
  {
    if n.CalendarEvents? && HasCalendarURL(calendars, n.url) && Get(s.calendarData, n.url).None? {
      assert [] + Received(n.events) == Received(n.events);
    }
  }

  /** A sequence of notifications, handled in order. */
  function ReceiveAll(calendars: seq<CalendarConfig>, broadcast: bool, s: FrontState, ns: seq<Notification>): FrontState
    decreases |ns|
  {
    if ns == [] then s else ReceiveAll(calendars, broadcast, Receive(calendars, broadcast, s, ns[0]), ns[1..])
  }

  /** How many of the notifications settle a fetch. */
  function SettledCount(calendars: seq<CalendarConfig>, ns: seq<Notification>): nat
  {
    if ns == [] then 0 else (if Settles(calendars, ns[0]) then 1 else 0) + SettledCount(calendars, ns[1..])
  }

  /** Over any run of notifications: pendingFetches drops by exactly the number that
      settle, loaded is never cleared, and calendarData only ever holds configured
      urls, each once. */
  lemma {:induction false} ReceiveAllMeaning(calendars: seq<CalendarConfig>, broadcast: bool, s: FrontState, ns: seq<Notification>)
    requires forall u :: u in Keys(s.calendarData) ==> HasCalendarURL(calendars, u)
    requires UniqueKeys(s.calendarData)
    ensures var t := ReceiveAll(calendars, broadcast, s, ns);
      && t.pendingFetches == s.pendingFetches - SettledCount(calendars, ns)
      && (s.loaded ==> t.loaded)
      && (forall u :: u in Keys(t.calendarData) ==> HasCalendarURL(calendars, u))
      && UniqueKeys(t.calendarData)
    decreases |ns|
  {
    if ns != [] {
      var s1 := Receive(calendars, broadcast, s, ns[0]);
      ReceiveMeaning(calendars, broadcast, s, ns[0]);
      var n := ns[0];
      if n.CalendarEvents? && HasCalendarURL(calendars, n.url) {
        PutUnique(s.calendarData, n.url, Merged(s.calendarData, n.url, n.page, n.events));
      }
      ReceiveAllMeaning(calendars, broadcast, s1, ns[1..]);
    }
  }

  /** After loadCalendars has counted one fetch per calendar, the module is loaded
      once events have arrived for every pending fetch with no error in between:
      a run of known-url events, one per pending fetch, sets loaded. */
  lemma {:induction false} LoadedAfterAllEvents(calendars: seq<CalendarConfig>, broadcast: bool, s: FrontState, ns: seq<Notification>)
    requires s.pendingFetches == |ns| && ns != []
    requires forall i :: 0 <= i < |ns| ==> ns[i].CalendarEvents? && HasCalendarURL(calendars, ns[i].url)
    ensures ReceiveAll(calendars, broadcast, s, ns).loaded
    ensures ReceiveAll(calendars, broadcast, s, ns).pendingFetches == 0
    decreases |ns|
  {
    var n := ns[0];
    var s1 := Receive(calendars, broadcast, s, n);
    assert s1 == StoreEvents(broadcast, s, n.url, n.page, n.events);
    assert s1.pendingFetches == |ns[1..]|;
    if |ns| == 1 {
      assert s1.loaded;
      assert ns[1..] == [];
    } else {
      LoadedAfterAllEvents(calendars, broadcast, s1, ns[1..]);
    }
  }

  // ---------------------------------------------------------------------------
  // The module object
  // ---------------------------------------------------------------------------

  /** The inner loop of createEventList over one calendar: the events it pushes and
      the calendar's events as left after the visit. */
  method VisitCalendar(key: string, calendar: seq<Shown>, hidePrivate: bool, todayTime: int)
    returns (pushed: seq<Shown>, visited: seq<Shown>)
    ensures pushed == Collect(key, calendar, hidePrivate, todayTime)
    ensures visited == TagCalendar(key, calendar, hidePrivate, todayTime)
  {
    pushed, visited := [], [];
    var e := 0;
    while e < |calendar|
      invariant 0 <= e <= |calendar|
      invariant pushed == Collect(key, calendar[..e], hidePrivate, todayTime)
      invariant visited == TagCalendar(key, calendar[..e], hidePrivate, todayTime)
    {
      var event := calendar[e];
      assert calendar[..e + 1][..e] == calendar[..e];
      if hidePrivate && event.event.visibility == Private {
        visited := visited + [event];
      } else {
        var tagged := Shown(event.event.(today := todayTime <= event.event.startDate < todayTime + DayMillis), Some(key));
        visited := visited + [tagged];
        pushed := pushed + [tagged];
      }
      e := e + 1;
    }
    assert calendar[..e] == calendar;
  }

  class CalendarModule {
    const settings: Settings
    /** config.calendars, which loadCalendars rewrites in place. */
    var calendars: seq<CalendarConfig>
    var calendarData: Entries<seq<Shown>>
    var pendingFetches: int
    var loaded: bool
    /** The ADD_CALENDAR payloads sent to the node helper. */
    var requests: seq<AddCalendar>
    /** The CALENDAR_EVENTS lists sent to other modules. */
    var broadcasts: seq<seq<Event>>

    function Front(): FrontState
      reads this
    {
      FrontState(calendarData, pendingFetches, loaded, broadcasts)
    }

    /** start(): nothing loaded, no calendar data, no pending fetch. */
    constructor(settings: Settings, calendars: seq<CalendarConfig>)
      ensures this.settings == settings && this.calendars == calendars
      ensures Front() == FrontState([], 0, false, []) && requests == []
    {
      this.settings := settings;
      this.calendars := calendars;
      calendarData := [];
      pendingFetches := 0;
      loaded := false;
      requests := [];
      broadcasts := [];
    }

    /** loadCalendars(): each calendar is prepared in place, counted as one pending
        fetch, and announced to the node helper. */
    method LoadCalendars()
      modifies this
      ensures |calendars| == |old(calendars)|
      ensures forall i :: 0 <= i < |calendars| ==> calendars[i] == Prepared(old(calendars)[i])
      ensures pendingFetches == old(pendingFetches) + |calendars|
      ensures requests == old(requests) + Payloads(settings, calendars)
      ensures calendarData == old(calendarData) && loaded == old(loaded) && broadcasts == old(broadcasts)
    {
      var c := 0;
      while c < |calendars|
        invariant 0 <= c <= |calendars| == |old(calendars)|
        invariant forall i :: 0 <= i < c ==> calendars[i] == Prepared(old(calendars)[i])
        invariant forall i :: c <= i < |calendars| ==> calendars[i] == old(calendars)[i]
        invariant pendingFetches == old(pendingFetches) + c
        invariant requests == old(requests) + Payloads(settings, calendars[..c])
        invariant calendarData == old(calendarData) && loaded == old(loaded) && broadcasts == old(broadcasts)
      {
        var calendar := calendars[c];
        calendar := calendar.(url := ReplaceFirst(calendar.url, WebcalScheme, HttpScheme));
        if Truthy(calendar.user) && Truthy(calendar.pass) {
          calendar := calendar.(auth := Some(Fetcher.Auth(None, calendar.user, calendar.pass)));
        }
        calendars := calendars[c := calendar];
        pendingFetches := pendingFetches + 1;
        requests := requests + [AddPayload(settings, calendar)];
        c := c + 1;
      }
    }

    /** broadcastEvents() */
    method BroadcastEvents()
      modifies this
      ensures broadcasts == old(broadcasts) + [BroadcastList(calendarData)]
      ensures calendars == old(calendars) && calendarData == old(calendarData)
      ensures pendingFetches == old(pendingFetches) && loaded == old(loaded) && requests == old(requests)
    {
      var eventList: seq<Event> := [];
      var u := 0;
      while u < |calendarData|
        invariant 0 <= u <= |calendarData|
        invariant eventList == Flatten(calendarData[..u])
      {
        var calendar := calendarData[u].1;
        ghost var before := eventList;
        var e := 0;
        while e < |calendar|
          invariant 0 <= e <= |calendar|
          invariant eventList == before + Plain(calendar[..e])
        {
          eventList := eventList + [calendar[e].event];
          e := e + 1;
        }
        assert calendar[..e] == calendar;
        assert calendarData[..u + 1][..u] == calendarData[..u];
        u := u + 1;
      }
      assert calendarData[..u] == calendarData;
      broadcasts := broadcasts + [SortBy(eventList, StartDate)];
    }

    /** socketNotificationReceived(notification, payload) */
    method SocketNotificationReceived(n: Notification)
      modifies this
      ensures Front() == Receive(calendars, settings.broadcastEvents, old(Front()), n)
      ensures calendars == old(calendars) && requests == old(requests)
    {
      match n {
        case CalendarEvents(url, page, events) =>
          if HasCalendarURL(calendars, url) {
            StoreCalendarEvents(url, page, events);
          }
        case FetchError(_) =>
          pendingFetches := pendingFetches - 1;
        case IncorrectUrl(_) =>
          pendingFetches := pendingFetches - 1;
        case Unknown(_) =>
      }
    }

    /** The CALENDAR_EVENTS branch for a configured url. */
    method StoreCalendarEvents(url: string, page: Option<int>, events: seq<Event>)
      modifies this
      ensures Front() == StoreEvents(settings.broadcastEvents, old(Front()), url, page, events)
      ensures calendars == old(calendars) && requests == old(requests)
    {
      ghost var s0 := Front();
      calendarData := Put(calendarData, url, Merged(calendarData, url, page, events));
      pendingFetches := pendingFetches - 1;
      if pendingFetches == 0 {
        loaded := true;
      }
      ghost var t := s0.(calendarData := calendarData, pendingFetches := pendingFetches, loaded := loaded);
      assert Front() == t;
      if settings.broadcastEvents {
        BroadcastEvents();
        assert Front() == t.(broadcasts := t.broadcasts + [BroadcastList(t.calendarData)]);
      }
    }

    /** createEventList(), with the start of today given as todayTime. */
    method CreateEventList(todayTime: int) returns (r: seq<Shown>)
      modifies this
      ensures r == EventList(old(calendarData), settings.hidePrivate, todayTime, settings.maximumEntries)
      ensures calendarData == TagAll(old(calendarData), settings.hidePrivate, todayTime)
      ensures calendars == old(calendars) && pendingFetches == old(pendingFetches) && loaded == old(loaded)
      ensures requests == old(requests) && broadcasts == old(broadcasts)
    {
      var data := calendarData;
      var events: seq<Shown> := [];
      var updated: Entries<seq<Shown>> := [];
      var c := 0;
      while c < |data|
        invariant 0 <= c <= |data|
        invariant events == CollectAll(data[..c], settings.hidePrivate, todayTime)
        invariant updated == TagAll(data[..c], settings.hidePrivate, todayTime)
        invariant unchanged(this)
      {
        var pushed, visited := VisitCalendar(data[c].0, data[c].1, settings.hidePrivate, todayTime);
        TagAllSnoc(data, c, settings.hidePrivate, todayTime);
        events := events + pushed;
        updated := updated + [(data[c].0, visited)];
        c := c + 1;
      }
      assert data[..c] == data;
      calendarData := updated;
      r := Slice(SortBy(events, ShownStart), 0, settings.maximumEntries);
    }

    /** titleTransform(title, maxLength): the title-replace table applied in order,
        then shortened to maxLength, or to maxTitleLength when maxLength is undefined
        or 0. */
    method TitleTransform(title: string, maxLength: Option<int>, regex: (string, string, string, string) -> string)
      returns (r: string)
      ensures r == Shorten(ReplaceAll(title, settings.titleReplace, regex), OrDefault(maxLength, settings.maxTitleLength))
    {
      var t := title;
      var k := 0;
      var table := settings.titleReplace;
      while k < |table|
        invariant 0 <= k <= |table|
        invariant ReplaceAll(t, table[k..], regex) == ReplaceAll(title, table, regex)
      {
        assert table[k..][1..] == table[k + 1..];
        t := ReplaceOne(t, table[k].0, table[k].1, regex);
        k := k + 1;
      }
      assert table[k..] == [];
      r := Shorten(t, if maxLength.Some? && maxLength.value != 0 then maxLength.value else settings.maxTitleLength);
    }
  }
}
