/** The calendar fetcher session (calendarfetcher.js): one per calendar URL. Its
    closure state (the reload timer, the current events, the page cursor and the
    more-events flag) becomes the fields of a class; processEvents, fetchCalendar,
    scheduleTimer, the response handlers, loadNextPage and resetPagination become its
    methods. The network is a boundary: fetchCalendar returns the request it would
    send, and the response or the failure is delivered by calling a method with it.
    Callbacks to the host are recorded, in order, in `notices`. */
module Fetcher {
  import opened Seqs
  import opened Text
  import opened Normalizer
  import opened Cache
  import Base64

  // ---------------------------------------------------------------------------
  // Errors and the status test
  // ---------------------------------------------------------------------------

  datatype FetchError =
    | HttpStatusError(code: int)   // "Request failed with status code <code>"
    | ParseError                   // the body could not be parsed as iCalendar data
    | TransportError               // the request's error event
    | TimeoutError                 // the request's timeout event

  /** The error a response status raises, if any: every status outside [200, 400) is a
      failure carrying its code, and every status inside it is accepted. */
  function StatusError(code: int): (r: Option<FetchError>)
    ensures r.Some? <==> (code < 200 || code >= 400)
    ensures r.Some? ==> r.value == HttpStatusError(code)
  {
    if code < 200 || code >= 400 then Some(HttpStatusError(code)) else None
  }

  // ---------------------------------------------------------------------------
  // Request headers
  // ---------------------------------------------------------------------------

  /** The auth option of a calendar: `method` (here `scheme`), `user` and `pass`, each possibly absent. */
  datatype Auth = Auth(scheme: Option<string>, user: Option<string>, pass: Option<string>)

  /** How a template literal renders a value that may be undefined. */
  function Template(o: Option<string>): string
  {
    if o.Some? then o.value else "undefined"
  }

  const BearerMethod := "bearer"

  /** `Basic <base64(utf8(user ":" pass))>`, section 2 of RFC 7617. */
  function BasicCredentials(user: string, pass: string): string
  {
    Base64.Encode(Base64.Utf8(user + ":" + pass))
  }

  /** The Authorization header: a bearer token for method "bearer", Basic credentials
      for every other method, an absent one included. */
  function AuthorizationHeader(a: Auth): (r: string)
    ensures a.scheme == Some(BearerMethod) ==> r == "Bearer " + Template(a.pass)
    ensures a.scheme != Some(BearerMethod) ==> r == "Basic " + BasicCredentials(Template(a.user), Template(a.pass))
  {
    if a.scheme == Some(BearerMethod) then "Bearer " + Template(a.pass)
    else "Basic " + BasicCredentials(Template(a.user), Template(a.pass))
  }

  /** A server reading a Basic header gets back the user and password: the credential
      decodes (base64, then UTF-8) to `user:pass`, and, since a user-id may not contain
      a colon (section 2 of RFC 7617), splitting at the first colon recovers both. */
  lemma BasicCredentialsRoundTrip(user: string, pass: string)
    requires ':' !in user
    ensures var text := user + ":" + pass;
      && Base64.Decode(BasicCredentials(user, pass)).Some?
      && Base64.Utf8Decode(Base64.Decode(BasicCredentials(user, pass)).value) == Some(text)
      && IndexOf(text, ":") == |user|
      && text[..|user|] == user && text[|user| + 1..] == pass
  {
    var text := user + ":" + pass;
    Base64.TextRoundTrip(text);
    assert OccursAt(text, ":", |user|) by {
      assert text[|user|..|user| + 1] == [text[|user|]];
    }
    forall j | 0 <= j < |user| ensures !OccursAt(text, ":", j) {
      assert text[j] == user[j];
      assert text[j..j + 1] == [text[j]];
      assert user[j] in user;
    }
    assert text[..|user|] == user;
    assert text[|user| + 1..] == pass;
  }

  const UserAgentKey := "User-Agent"
  const CacheControlKey := "Cache-Control"
  const PragmaKey := "Pragma"
  const AuthorizationKey := "Authorization"
  const NoCache := "no-cache"

  /** `MagicMirror/<version> (Node.js <node version>)` */
  function UserAgent(mirrorVersion: string, nodeVersion: string): string
  {
    "MagicMirror/" + mirrorVersion + " (Node.js " + nodeVersion + ")"
  }

  /** The header object of every request: the client identifier, the two cache-busting
      headers, and an Authorization header exactly when an auth option is configured. */
  function RequestHeaders(auth: Option<Auth>, mirrorVersion: string, nodeVersion: string): (r: Entries<string>)
    ensures Get(r, UserAgentKey) == Some(UserAgent(mirrorVersion, nodeVersion))
    ensures Get(r, CacheControlKey) == Some(NoCache) && Get(r, PragmaKey) == Some(NoCache)
    ensures Get(r, AuthorizationKey).Some? <==> auth.Some?
    ensures auth.Some? ==> Get(r, AuthorizationKey) == Some(AuthorizationHeader(auth.value))
    ensures UniqueKeys(r)
  {
    var ua := UserAgent(mirrorVersion, nodeVersion);
    var base: Entries<string> := [(UserAgentKey, ua), (CacheControlKey, NoCache), (PragmaKey, NoCache)];
    assert base[1..] == [(CacheControlKey, NoCache), (PragmaKey, NoCache)] && base[1..][1..] == [(PragmaKey, NoCache)];
    assert Get(base, UserAgentKey) == Some(ua);
    assert Get(base, CacheControlKey) == Some(NoCache);
    assert Get(base[1..][1..], PragmaKey) == Some(NoCache);
    assert Get(base, PragmaKey) == Some(NoCache);
    assert UniqueKeys(base);
    if auth.Some? then
      PutUnique(base, AuthorizationKey, AuthorizationHeader(auth.value));
      Put(base, AuthorizationKey, AuthorizationHeader(auth.value))
    else
      assert Get(base, AuthorizationKey).None? by {
        assert base[1..][1..][1..] == [];
        assert Get(base[1..][1..], AuthorizationKey).None?;
      }
      base
  }

  /** The transport timeout of every request, in milliseconds. */
  const RequestTimeout := 10000

  /** The request fetchCalendar sends, with the cache keys its response is stored under. */
  datatype Request = Request(
    url: string,
    headers: Entries<string>,
    verifyCertificate: bool,   // false only for a calendar marked selfSignedCert
    timeout: int,
    pageKey: CacheKey,
    metaKey: CacheKey)

  /** A callback to the host: eventsReceivedCallback with the events the session then
      holds, or fetchFailedCallback with the error. */
  datatype Notice = EventsReceived(events: seq<Event>) | FetchFailed(error: FetchError)

  // ---------------------------------------------------------------------------
  // Cache reads
  // ---------------------------------------------------------------------------

  /** The page record cached for (url, page) at time now, if any. */
  function PageHit(view: Option<Table>, url: string, page: int, now: int): (r: Option<CachedPage>)
    ensures r.Some? ==> view.Some? && Lookup(view.value, PageKey(url, page), now) == Some(PageValue(r.value))
  {
    if view.None? then None
    else match Lookup(view.value, PageKey(url, page), now)
      case Some(PageValue(p)) => Some(p)
      case _ => None
  }

  /** The metadata record cached for url at time now, if any. */
  function MetaHit(view: Option<Table>, url: string, now: int): (r: Option<CachedMeta>)
    ensures r.Some? ==> view.Some? && Lookup(view.value, MetaKey(url), now) == Some(MetaValue(r.value))
  {
    if view.None? then None
    else match Lookup(view.value, MetaKey(url), now)
      case Some(MetaValue(m)) => Some(m)
      case _ => None
  }

  /** Conversely, an unexpired page record under the page's key is always found, and
      an unexpired metadata record under the calendar's key too. */
  lemma HitsFound(view: Option<Table>, url: string, page: int, now: int, p: CachedPage, m: CachedMeta)
    ensures view.Some? && Lookup(view.value, PageKey(url, page), now) == Some(PageValue(p)) ==> PageHit(view, url, page, now) == Some(p)
    ensures view.Some? && Lookup(view.value, MetaKey(url), now) == Some(MetaValue(m)) ==> MetaHit(view, url, now) == Some(m)
  {
  }

  /** The short-circuit test: metadata is cached and its last fetch is less than one
      reload interval ago. */
  predicate Fresh(meta: Option<CachedMeta>, now: int, reloadInterval: int)
  {
    meta.Some? && meta.value.lastFetch > now - reloadInterval
  }

  /** The two cache writes of a successful cycle, both with the reload interval as
      time to live: the page under the request's page key, then the metadata. */
  function CycleWrite(entries: Table, req: Request, page: CachedPage, pageSize: int, ttl: int, now: int): Table
  {
    var e1 := Write(entries, req.pageKey, PageValue(page), ttl, now);
    Write(e1, req.metaKey, MetaValue(CachedMeta(now, TotalPages(page.totalEvents, pageSize))), ttl, now)
  }

  /** The cache after a successful response has left the session in state t with
      `total` valid events: unchanged without a cache, otherwise the cycle's writes of
      t's page and flag and of the page count. */
  function CycleWritten(cfg: Config, view: Option<Table>, req: Request, t: SessionState, total: nat, now: int): (r: Option<Table>)
    ensures r.Some? <==> view.Some?
    ensures r.Some? ==>
      && req.metaKey in r.value
      && r.value[req.metaKey] == Stored(MetaValue(CachedMeta(now, TotalPages(total, cfg.maximumEntries))), now + cfg.reloadInterval)
    ensures r.Some? && req.pageKey != req.metaKey ==>
      && req.pageKey in r.value
      && r.value[req.pageKey] == Stored(PageValue(CachedPage(t.events, t.hasMoreEvents, total)), now + cfg.reloadInterval)
    ensures r.Some? ==> forall k, at :: k != req.pageKey && k != req.metaKey ==> Lookup(r.value, k, at) == Lookup(view.value, k, at)
  {
    if view.None? then None
    else Some(CycleWrite(view.value, req, CachedPage(t.events, t.hasMoreEvents, total), cfg.maximumEntries,
                         cfg.reloadInterval, now))
  }

  /** Cache freshness: after a successful cycle at time t, fetching again at a time
      t' >= t skips the network exactly while t' < t + reloadInterval, and meanwhile
      the cached page is served as it was written. */
  lemma {:induction false} FreshAfterCycle(entries: Table, url: string, pageNumber: int, req: Request,
                                           page: CachedPage, pageSize: int, ttl: int, t: int, t': int)
    requires req.pageKey == PageKey(url, pageNumber) && req.metaKey == MetaKey(url)
    requires t <= t'
    ensures var view := Some(CycleWrite(entries, req, page, pageSize, ttl, t));
      && (Fresh(MetaHit(view, url, t'), t', ttl) <==> t' < t + ttl)
      && (t' < t + ttl ==> PageHit(view, url, pageNumber, t') == Some(page))
      && (MetaHit(view, url, t').Some? ==> MetaHit(view, url, t').value.totalPages == TotalPages(page.totalEvents, pageSize))
  {
    var e1 := Write(entries, req.pageKey, PageValue(page), ttl, t);
    var e2 := Write(e1, req.metaKey, MetaValue(CachedMeta(t, TotalPages(page.totalEvents, pageSize))), ttl, t);
    WriteThenLookup(e1, req.metaKey, MetaValue(CachedMeta(t, TotalPages(page.totalEvents, pageSize))), ttl, t, t', req.pageKey);
    WriteThenLookup(entries, req.pageKey, PageValue(page), ttl, t, t', req.metaKey);
  }

  // ---------------------------------------------------------------------------
  // Timers
  // ---------------------------------------------------------------------------

  function TimerSet(timer: Option<nat>): set<nat>
  {
    if timer.Some? then {timer.value} else {}
  }

  /** Every pending timer is the one the session holds in reloadTimer. */
  predicate TimersConsistent(reloadTimer: Option<nat>, pending: set<nat>)
  {
    pending <= TimerSet(reloadTimer)
  }

  /** So a session never has more than one reload pending. */
  lemma AtMostOneTimer(reloadTimer: Option<nat>, pending: set<nat>)
    requires TimersConsistent(reloadTimer, pending)
    ensures |pending| <= 1
    ensures pending != {} ==> pending == {reloadTimer.value}
  {
    if reloadTimer.Some? {
      assert pending == {} || pending == {reloadTimer.value};
    }
  }

  // ---------------------------------------------------------------------------
  // The session: configuration, state and its transitions
  // ---------------------------------------------------------------------------

  /** The constructor arguments of a fetcher, with the host's version strings that
      the client identifier shows. `includePastEvents` is carried only to mirror the
      constructor's signature: the fetcher never reads it. */
  datatype Config = Config(
    url: string,
    reloadInterval: int,
    excludedEvents: seq<string>,
    maximumEntries: int,
    maximumNumberOfDays: int,
    auth: Option<Auth>,
    includePastEvents: bool,
    selfSignedCert: bool,
    mirrorVersion: string,
    nodeVersion: string)

  /** The session's mutable state: the closure variables, this.totalEvents (undefined
      until processEvents first runs), the callbacks made so far, and the timers that
      are set and have neither fired nor been cleared, with the next handle to use. */
  datatype SessionState = SessionState(
    reloadTimer: Option<nat>,
    events: seq<Event>,
    currentPage: int,
    hasMoreEvents: bool,
    totalEvents: Option<nat>,
    notices: seq<Notice>,
    pendingTimers: set<nat>,
    nextTimer: nat)

  /** The page cursor never drops below 1, every pending timer is reloadTimer, and
      reloadTimer was handed out before the next handle. */
  predicate ValidState(s: SessionState)
  {
    && s.currentPage >= 1
    && TimersConsistent(s.reloadTimer, s.pendingTimers)
    && (s.reloadTimer.Some? ==> s.reloadTimer.value < s.nextTimer)
  }

  /** The state of a new fetcher. */
  function Initial(): (s: SessionState)
    ensures ValidState(s) && s.currentPage == 1 && s.hasMoreEvents && s.events == []
    ensures s.reloadTimer.None? && s.pendingTimers == {} && s.totalEvents.None? && s.notices == []
  {
    SessionState(None, [], 1, true, None, [], {}, 0)
  }

  /** The request for page `page`. */
  function RequestFor(cfg: Config, page: int): (r: Request)
    ensures r.pageKey == PageKey(cfg.url, page) && r.metaKey == MetaKey(cfg.url)
    ensures r.verifyCertificate <==> !cfg.selfSignedCert
    ensures r.url == cfg.url && r.timeout == RequestTimeout
    ensures r.headers == RequestHeaders(cfg.auth, cfg.mirrorVersion, cfg.nodeVersion)
  {
    Request(cfg.url, RequestHeaders(cfg.auth, cfg.mirrorVersion, cfg.nodeVersion), !cfg.selfSignedCert,
            RequestTimeout, PageKey(cfg.url, page), MetaKey(cfg.url))
  }

  /** clearTimeout(reloadTimer) */
  function ClearTimer(s: SessionState): SessionState
  {
    s.(pendingTimers := s.pendingTimers - TimerSet(s.reloadTimer))
  }

  /** scheduleTimer(): clears the reload timer, then sets a new one. */
  function Schedule(s: SessionState): SessionState
  {
    var c := ClearTimer(s);
    c.(reloadTimer := Some(c.nextTimer), pendingTimers := c.pendingTimers + {c.nextTimer}, nextTimer := c.nextTimer + 1)
  }

  /** Scheduling leaves exactly one timer pending, a new one, and changes nothing else
      the session shows. */
  lemma ScheduleMeaning(s: SessionState)
    requires ValidState(s)
    ensures var t := Schedule(s);
      && ValidState(t)
      && t.pendingTimers == {s.nextTimer} && t.reloadTimer == Some(s.nextTimer)
      && s.nextTimer !in s.pendingTimers
      && t.events == s.events && t.currentPage == s.currentPage && t.hasMoreEvents == s.hasMoreEvents
      && t.totalEvents == s.totalEvents && t.notices == s.notices
  {
    AtMostOneTimer(s.reloadTimer, s.pendingTimers);
    var c := ClearTimer(s);
    assert c.pendingTimers == {};
  }

  /** this.broadcastEvents(): the receive callback sees the current events. */
  function Broadcast(s: SessionState): SessionState
  {
    s.(notices := s.notices + [EventsReceived(s.events)])
  }

  /** A callback to the failure handler. */
  function Report(s: SessionState, error: FetchError): SessionState
  {
    s.(notices := s.notices + [FetchFailed(error)])
  }

  /** fetchCalendar() at time now against the cache contents `view`: the result state and
      the request sent, if any. */
  function Fetch(cfg: Config, s: SessionState, view: Option<Table>, now: int): (SessionState, Option<Request>)
  {
    var cleared := ClearTimer(s).(reloadTimer := None);
    var hit := PageHit(view, cfg.url, s.currentPage, now);
    var served :=
      if hit.Some? then Broadcast(cleared.(events := hit.value.events, hasMoreEvents := hit.value.hasMore))
      else cleared;
    if Fresh(MetaHit(view, cfg.url, now), now, cfg.reloadInterval) then (Schedule(served), None)
    else (served, Some(RequestFor(cfg, s.currentPage)))
  }

  /** fetchCalendar: a page of the current number cached and not expired first replaces
      the events and the flag and is broadcast; then exactly when the metadata is fresh
      no request is made and a single new timer is pending; otherwise the request for
      the current page is made and no timer is pending while it is outstanding. The
      page number and the total stay as they were. */
  lemma FetchMeaning(cfg: Config, s: SessionState, view: Option<Table>, now: int)
    requires ValidState(s)
    ensures var (t, req) := Fetch(cfg, s, view, now);
      var hit := PageHit(view, cfg.url, s.currentPage, now);
      && ValidState(t)
      && t.currentPage == s.currentPage && t.totalEvents == s.totalEvents
      && t.events == (if hit.Some? then hit.value.events else s.events)
      && t.hasMoreEvents == (if hit.Some? then hit.value.hasMore else s.hasMoreEvents)
      && t.notices == s.notices + (if hit.Some? then [EventsReceived(hit.value.events)] else [])
      && (req.None? <==> Fresh(MetaHit(view, cfg.url, now), now, cfg.reloadInterval))
      && (req.None? ==> t.pendingTimers == {s.nextTimer} && t.reloadTimer == Some(s.nextTimer))
      && (req.Some? ==> req.value == RequestFor(cfg, s.currentPage) && t.pendingTimers == {} && t.reloadTimer.None?)
  {
    AtMostOneTimer(s.reloadTimer, s.pendingTimers);
    var cleared := ClearTimer(s).(reloadTimer := None);
    assert cleared.pendingTimers == {};
    var hit := PageHit(view, cfg.url, s.currentPage, now);
    var served :=
      if hit.Some? then Broadcast(cleared.(events := hit.value.events, hasMoreEvents := hit.value.hasMore))
      else cleared;
    assert served.pendingTimers == {} && served.reloadTimer.None? && served.nextTimer == s.nextTimer;
    assert served.currentPage == s.currentPage && served.totalEvents == s.totalEvents;
    assert served.events == (if hit.Some? then hit.value.events else s.events);
    assert served.hasMoreEvents == (if hit.Some? then hit.value.hasMore else s.hasMoreEvents);
    assert served.notices == s.notices + (if hit.Some? then [EventsReceived(hit.value.events)] else []);
    if Fresh(MetaHit(view, cfg.url, now), now, cfg.reloadInterval) {
      assert Fetch(cfg, s, view, now) == (Schedule(served), None);
      ScheduleMeaning(served);
    } else {
      assert Fetch(cfg, s, view, now) == (served, Some(RequestFor(cfg, s.currentPage)));
    }
  }

  /** The part of FetchMeaning the page-changing operations rely on. */
  lemma FetchKeeps(cfg: Config, s: SessionState, view: Option<Table>, now: int)
    requires ValidState(s)
    ensures ValidState(Fetch(cfg, s, view, now).0)
    ensures Fetch(cfg, s, view, now).0.currentPage == s.currentPage
    ensures Fetch(cfg, s, view, now).1.Some? ==> Fetch(cfg, s, view, now).1.value == RequestFor(cfg, s.currentPage)
  {
    FetchMeaning(cfg, s, view, now);
  }

  /** The response to `req` arrives at time now with status `status` and a body the
      iCalendar parser turns into `parsed` (None when it throws): the new state and the
      new cache contents. */
  function Respond(cfg: Config, s: SessionState, view: Option<Table>, req: Request, status: int,
                    parsed: Option<seq<Component>>, now: int, ref: Reference): (SessionState, Option<Table>)
  {
    if StatusError(status).Some? then (Schedule(Report(s, StatusError(status).value)), view)
    else if parsed.None? then (Schedule(Report(s, ParseError)), view)
    else
      var valid := ValidEvents(parsed.value, ref, cfg.excludedEvents);
      var page := PageOf(valid, s.currentPage, cfg.maximumEntries);
      var hasMore := HasMore(|valid|, s.currentPage, cfg.maximumEntries);
      var processed := s.(events := page, hasMoreEvents := hasMore, totalEvents := Some(|valid|));
      var written :=
        if view.None? then None
        else Some(CycleWrite(view.value, req, CachedPage(page, hasMore, |valid|), cfg.maximumEntries,
                             cfg.reloadInterval, now));
      (Schedule(Broadcast(processed)), written)
  }

  /** A response always ends with a single new timer pending. A failing status or a
      parse error makes one failure callback and changes neither the events nor the
      cache, so a page cached earlier can still be served; a parsed body makes the
      page of the sorted valid events the current events, holding at most
      maximumEntries of them for a non-negative maximumEntries, and broadcasts it. */
  lemma RespondMeaning(cfg: Config, s: SessionState, view: Option<Table>, req: Request, status: int,
                        parsed: Option<seq<Component>>, now: int, ref: Reference)
    requires ValidState(s)
    ensures var (t, written) := Respond(cfg, s, view, req, status, parsed, now, ref);
      && ValidState(t)
      && t.pendingTimers == {s.nextTimer} && t.reloadTimer == Some(s.nextTimer)
      && t.currentPage == s.currentPage
      && (StatusError(status).Some? ==>
            && t.notices == s.notices + [FetchFailed(HttpStatusError(status))] && t.events == s.events && written == view
            && t.hasMoreEvents == s.hasMoreEvents && t.totalEvents == s.totalEvents)
      && (StatusError(status).None? && parsed.None? ==>
            && t.notices == s.notices + [FetchFailed(ParseError)] && t.events == s.events && written == view
            && t.hasMoreEvents == s.hasMoreEvents && t.totalEvents == s.totalEvents)
      && (StatusError(status).None? && parsed.Some? ==>
            var valid := ValidEvents(parsed.value, ref, cfg.excludedEvents);
            && t.events == PageOf(valid, s.currentPage, cfg.maximumEntries)
            && (cfg.maximumEntries >= 0 ==> |t.events| <= cfg.maximumEntries)
            && SortedBy(t.events, StartDate)
            && t.hasMoreEvents == (|valid| > s.currentPage * cfg.maximumEntries)
            && t.totalEvents == Some(|valid|)
            && t.notices == s.notices + [EventsReceived(t.events)]
            && written == CycleWritten(cfg, view, req, t, |valid|, now))
  {
    if StatusError(status).Some? {
      ScheduleMeaning(Report(s, StatusError(status).value));
    } else if parsed.None? {
      ScheduleMeaning(Report(s, ParseError));
    } else {
      RespondParsed(cfg, s, view, req, status, parsed.value, now, ref);
    }
  }

  /** The successful branch of a response, on its own. */
  lemma RespondParsed(cfg: Config, s: SessionState, view: Option<Table>, req: Request, status: int,
                      cs: seq<Component>, now: int, ref: Reference)
    requires ValidState(s) && StatusError(status).None?
    ensures var (t, written) := Respond(cfg, s, view, req, status, Some(cs), now, ref);
      var valid := ValidEvents(cs, ref, cfg.excludedEvents);
      && ValidState(t)
      && t.pendingTimers == {s.nextTimer} && t.reloadTimer == Some(s.nextTimer)
      && t.currentPage == s.currentPage
      && t.events == PageOf(valid, s.currentPage, cfg.maximumEntries)
      && (cfg.maximumEntries >= 0 ==> |t.events| <= cfg.maximumEntries)
      && SortedBy(t.events, StartDate)
      && t.hasMoreEvents == (|valid| > s.currentPage * cfg.maximumEntries)
      && t.totalEvents == Some(|valid|)
      && t.notices == s.notices + [EventsReceived(t.events)]
      && written == CycleWritten(cfg, view, req, t, |valid|, now)
  {
    var valid := ValidEvents(cs, ref, cfg.excludedEvents);
    var page := PageOf(valid, s.currentPage, cfg.maximumEntries);
    var hasMore := HasMore(|valid|, s.currentPage, cfg.maximumEntries);
    var processed := s.(events := page, hasMoreEvents := hasMore, totalEvents := Some(|valid|));
    ScheduleMeaning(Broadcast(processed));
    assert (s.currentPage - 1) * cfg.maximumEntries + cfg.maximumEntries == s.currentPage * cfg.maximumEntries;
    PageSorted(valid, s.currentPage, cfg.maximumEntries);
    if cfg.maximumEntries >= 0 {
      PageRange(SortBy(valid, StartDate), s.currentPage, cfg.maximumEntries);
    }
  }

  /** Cache freshness over a whole cycle (with a cache present): once a response has
      been processed at time t, fetching the same page at any t' >= t makes no request
      exactly while t' < t + reloadInterval, and meanwhile serves the events that
      cycle produced. */
  lemma {:induction false} CycleThenFetch(cfg: Config, s: SessionState, entries: Table, status: int,
                                          cs: seq<Component>, t: int, t': int, ref: Reference)
    requires ValidState(s) && StatusError(status).None? && t <= t'
    ensures var (s1, view1) := Respond(cfg, s, Some(entries), RequestFor(cfg, s.currentPage), status, Some(cs), t, ref);
      var (s2, req) := Fetch(cfg, s1, view1, t');
      && (req.None? <==> t' < t + cfg.reloadInterval)
      && (t' < t + cfg.reloadInterval ==> s2.events == s1.events && s2.notices == s1.notices + [EventsReceived(s1.events)])
  {
    var req := RequestFor(cfg, s.currentPage);
    var (s1, view1) := Respond(cfg, s, Some(entries), req, status, Some(cs), t, ref);
    var valid := ValidEvents(cs, ref, cfg.excludedEvents);
    var page := CachedPage(s1.events, s1.hasMoreEvents, |valid|);
    assert view1 == Some(CycleWrite(entries, req, page, cfg.maximumEntries, cfg.reloadInterval, t));
    FreshAfterCycle(entries, cfg.url, s.currentPage, req, page, cfg.maximumEntries, cfg.reloadInterval, t, t');
    RespondMeaning(cfg, s, Some(entries), req, status, Some(cs), t, ref);
    FetchMeaning(cfg, s1, view1, t');
  }

  /** this.loadNextPage() */
  function LoadNext(cfg: Config, s: SessionState, view: Option<Table>, now: int): (SessionState, Option<Request>)
  {
    if !s.hasMoreEvents then (s, None) else Fetch(cfg, NextPage(s), view, now)
  }

  /** currentPage++ */
  function NextPage(s: SessionState): SessionState
  {
    s.(currentPage := s.currentPage + 1)
  }

  /** loadNextPage changes nothing when there are no more events; otherwise it moves to
      exactly the next page and fetches that page. */
  lemma LoadNextMeaning(cfg: Config, s: SessionState, view: Option<Table>, now: int)
    requires ValidState(s)
    ensures var (t, req) := LoadNext(cfg, s, view, now);
      && ValidState(t)
      && (!s.hasMoreEvents ==> t == s && req.None?)
      && (s.hasMoreEvents ==>
            && t.currentPage == s.currentPage + 1
            && (req.Some? ==> req.value.pageKey == PageKey(cfg.url, s.currentPage + 1)))
  {
    if s.hasMoreEvents {
      LoadNextAdvances(cfg, s, view, now);
    }
  }

  /** The case with more events, on its own. */
  lemma LoadNextAdvances(cfg: Config, s: SessionState, view: Option<Table>, now: int)
    requires ValidState(s) && s.hasMoreEvents
    ensures ValidState(LoadNext(cfg, s, view, now).0)
    ensures LoadNext(cfg, s, view, now).0.currentPage == s.currentPage + 1
    ensures LoadNext(cfg, s, view, now).1.Some? ==> LoadNext(cfg, s, view, now).1.value.pageKey == PageKey(cfg.url, s.currentPage + 1)
  {
    var n := NextPage(s);
    assert ValidState(n) && n.currentPage == s.currentPage + 1;
    assert LoadNext(cfg, s, view, now) == Fetch(cfg, n, view, now);
    FetchKeeps(cfg, n, view, now);
  }

  /** this.resetPagination() */
  function Reset(cfg: Config, s: SessionState, view: Option<Table>, now: int): (SessionState, Option<Request>)
  {
    Fetch(cfg, s.(currentPage := 1, hasMoreEvents := true), view, now)
  }

  /** resetPagination returns to page 1 with more events assumed, unless a cached
      first page says otherwise, and fetches page 1. */
  lemma ResetMeaning(cfg: Config, s: SessionState, view: Option<Table>, now: int)
    requires ValidState(s)
    ensures var (t, req) := Reset(cfg, s, view, now);
      var hit := PageHit(view, cfg.url, 1, now);
      && ValidState(t)
      && t.currentPage == 1
      && t.hasMoreEvents == (if hit.Some? then hit.value.hasMore else true)
      && (req.Some? ==> req.value.pageKey == PageKey(cfg.url, 1))
  {
    FetchMeaning(cfg, s.(currentPage := 1, hasMoreEvents := true), view, now);
  }

  // ---------------------------------------------------------------------------
  // The session object
  // ---------------------------------------------------------------------------

  /** The forEach callback of processEvents for one component: the events it pushes
      onto validEvents. */
  method PushContribution(validEvents: seq<Event>, c: Component, ref: Reference, phrases: seq<string>)
    returns (r: seq<Event>)
    ensures r == validEvents + Contribution(c, ref, phrases)
  {
    r := validEvents;
    if c.kind != VEvent {
      return;
    }
    if c.start < ref.todayTime || c.start > ref.futureTime {
      return;
    }
    if c.rrule.Some? {
      var occurrences := Between(c.rrule.value, ref.todayTime, ref.futureTime, MaxOccurrences);
      var k := 0;
      while k < |occurrences|
        invariant 0 <= k <= |occurrences|
        invariant r == validEvents + Occurrences(c, occurrences[..k], ref)
      {
        assert Occurrences(c, occurrences[..k + 1], ref) ==
          Occurrences(c, occurrences[..k], ref) + [FromOccurrence(c, occurrences[k], ref)];
        r := r + [FromOccurrence(c, occurrences[k], ref)];
        k := k + 1;
      }
      assert occurrences[..k] == occurrences;
      return;
    }
    if Excluded(c.summary, phrases) {
      return;
    }
    r := r + [Single(c, ref)];
  }

  class Session {
    const config: Config
    /** global.nodeHelper?.cache: the shared store, or null when the host has none. */
    const cache: Store?

    var reloadTimer: Option<nat>
    var events: seq<Event>
    var currentPage: int
    var hasMoreEvents: bool
    var totalEvents: Option<nat>
    var notices: seq<Notice>
    var pendingTimers: set<nat>
    var nextTimer: nat

    function State(): SessionState
      reads this
    {
      SessionState(reloadTimer, events, currentPage, hasMoreEvents, totalEvents, notices, pendingTimers, nextTimer)
    }

    ghost predicate Valid()
      reads this
    {
      ValidState(State())
    }

    /** The cache's entries, or None without a cache. */
    function CacheView(): Option<Table>
      reads this, cache
    {
      if cache == null then None else Some(cache.entries)
    }

    constructor(config: Config, cache: Store?)
      ensures this.config == config && this.cache == cache
      ensures State() == Initial()
      ensures Valid()
    {
      this.config := config;
      this.cache := cache;
      reloadTimer := None;
      events := [];
      currentPage := 1;
      hasMoreEvents := true;
      totalEvents := None;
      notices := [];
      pendingTimers := {};
      nextTimer := 0;
    }

    /** processEvents(components, page, pageSize): the page of the sorted valid events,
        with hasMoreEvents and totalEvents set from the whole list. */
    method ProcessEvents(cs: seq<Component>, page: int, pageSize: int, ref: Reference) returns (r: seq<Event>)
      modifies this
      ensures var valid := ValidEvents(cs, ref, config.excludedEvents);
        && r == PageOf(valid, page, pageSize)
        && State() == old(State()).(hasMoreEvents := HasMore(|valid|, page, pageSize), totalEvents := Some(|valid|))
    {
      var validEvents: seq<Event> := [];
      var i := 0;
      while i < |cs|
        invariant 0 <= i <= |cs|
        invariant validEvents == ValidEvents(cs[..i], ref, config.excludedEvents)
        invariant State() == old(State())
      {
        var c := cs[i];
        assert cs[..i + 1][..i] == cs[..i];
        validEvents := PushContribution(validEvents, c, ref, config.excludedEvents);
        i := i + 1;
      }
      assert cs[..i] == cs;
      var sorted := SortBy(validEvents, StartDate);
      var start := (page - 1) * pageSize;
      var end := start + pageSize;
      hasMoreEvents := |sorted| > end;
      totalEvents := Some(|sorted|);
      r := Slice(sorted, start, end);
    }

    /** this.broadcastEvents() */
    method BroadcastEvents()
      modifies this
      ensures State() == Broadcast(old(State()))
    {
      notices := notices + [EventsReceived(events)];
    }

    /** scheduleTimer() */
    method ScheduleTimer()
      requires Valid()
      modifies this
      ensures State() == Schedule(old(State()))
      ensures Valid()
    {
      ScheduleMeaning(State());
      pendingTimers := pendingTimers - TimerSet(reloadTimer);
      reloadTimer := Some(nextTimer);
      pendingTimers := pendingTimers + {nextTimer};
      nextTimer := nextTimer + 1;
    }

    /** The `if (cachedPage)` step of fetchCalendar: a cached page replaces the events
        and the flag and is broadcast. */
    method ServeCachedPage(hit: Option<CachedPage>)
      modifies this
      ensures State() == if hit.Some? then Broadcast(old(State()).(events := hit.value.events, hasMoreEvents := hit.value.hasMore))
        else old(State())
    {
      if hit.Some? {
        events := hit.value.events;
        hasMoreEvents := hit.value.hasMore;
        BroadcastEvents();
      }
    }

    /** fetchCalendar(), at time now. */
    method FetchCalendar(now: int) returns (req: Option<Request>)
      requires Valid()
      modifies this
      ensures (State(), req) == Fetch(config, old(State()), CacheView(), now)
      ensures Valid()
    {
      ghost var view := CacheView();
      ghost var s0 := State();
      pendingTimers := pendingTimers - TimerSet(reloadTimer);
      reloadTimer := None;
      assert pendingTimers == {} && Valid();
      ghost var cleared := State();
      assert cleared == ClearTimer(s0).(reloadTimer := None);
      var pageKey := PageKey(config.url, currentPage);
      var metaKey := MetaKey(config.url);
      var cachedPage: Option<CacheValue> := None;
      var cachedMeta: Option<CacheValue> := None;
      if cache != null {
        cachedPage := cache.Get(pageKey, now);
        cachedMeta := cache.Get(metaKey, now);
      }
      var hit := if cachedPage.Some? && cachedPage.value.PageValue? then Some(cachedPage.value.page) else None;
      assert hit == PageHit(view, config.url, s0.currentPage, now);
      ghost var isFresh := Fresh(MetaHit(view, config.url, now), now, config.reloadInterval);
      assert isFresh <==>
        (cachedMeta.Some? && cachedMeta.value.MetaValue? && cachedMeta.value.meta.lastFetch > now - config.reloadInterval);
      ServeCachedPage(hit);
      if cachedMeta.Some? && cachedMeta.value.MetaValue? && cachedMeta.value.meta.lastFetch > now - config.reloadInterval {
        ScheduleTimer();
        return None;
      }
      return Some(RequestFor(config, currentPage));
    }

    /** this.startFetch() */
    method StartFetch(now: int) returns (req: Option<Request>)
      requires Valid()
      modifies this
      ensures (State(), req) == Fetch(config, old(State()), CacheView(), now)
      ensures Valid()
    {
      req := FetchCalendar(now);
    }

    /** The reload timer `handle` fires at time now and runs fetchCalendar. */
    method TimerFired(handle: nat, now: int) returns (req: Option<Request>)
      requires Valid() && handle in pendingTimers
      modifies this
      ensures (State(), req) == Fetch(config, old(State()).(pendingTimers := old(pendingTimers) - {handle}), CacheView(), now)
      ensures Valid()
    {
      pendingTimers := pendingTimers - {handle};
      req := FetchCalendar(now);
    }

    /** The response to `req` arrives at time now: see Respond. */
    method Complete(req: Request, status: int, parsed: Option<seq<Component>>, now: int, ref: Reference)
      requires Valid()
      modifies this, cache
      ensures (State(), CacheView()) == Respond(config, old(State()), old(CacheView()), req, status, parsed, now, ref)
      ensures Valid()
    {
      var failure := StatusError(status);
      if failure.Some? {
        notices := notices + [FetchFailed(failure.value)];
        ScheduleTimer();
        return;
      }
      if parsed.None? {
        notices := notices + [FetchFailed(ParseError)];
        ScheduleTimer();
        return;
      }
      var processed := ProcessEvents(parsed.value, currentPage, config.maximumEntries, ref);
      events := processed;
      if cache != null {
        cache.Set(req.pageKey, PageValue(CachedPage(processed, hasMoreEvents, totalEvents.value)),
                  config.reloadInterval, now);
        cache.Set(req.metaKey, MetaValue(CachedMeta(now, TotalPages(totalEvents.value, config.maximumEntries))),
                  config.reloadInterval, now);
      }
      BroadcastEvents();
      ScheduleTimer();
    }

    /** The request's error or timeout event: reported, then a new timer is set. */
    method RequestFailed(error: FetchError)
      requires Valid() && (error.TransportError? || error.TimeoutError?)
      modifies this
      ensures State() == Schedule(Report(old(State()), error))
      ensures Valid()
    {
      notices := notices + [FetchFailed(error)];
      ScheduleTimer();
    }

    /** this.loadNextPage() */
    method LoadNextPage(now: int) returns (req: Option<Request>)
      requires Valid()
      modifies this
      ensures (State(), req) == LoadNext(config, old(State()), CacheView(), now)
      ensures Valid()
    {
      if !hasMoreEvents {
        return None;
      }
      ghost var s0 := State();
      currentPage := currentPage + 1;
      assert State() == NextPage(s0);
      req := FetchCalendar(now);
    }

    /** this.resetPagination() */
    method ResetPagination(now: int) returns (req: Option<Request>)
      requires Valid()
      modifies this
      ensures (State(), req) == Reset(config, old(State()), CacheView(), now)
      ensures Valid()
    {
      currentPage := 1;
      hasMoreEvents := true;
      req := FetchCalendar(now);
    }
  }
}
