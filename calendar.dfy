/**
 * The Yandex calendar service: connecting to the CalDAV server, creating an
 * event in the first calendar of the account and listing events.
 *
 * The CalDAV library is not modelled; what the server answers is passed in:
 * the listing of the account's calendars, and what saving an event or a
 * search returns (a value, or the message of the exception it raised).
 */
module Calendar {
  import opened Wrappers
  import opened Text
  import opened Time

  const DefaultDescription: string := "Создано через Telegram Бота"
  const ConnectFailurePrefix: string := "Не удалось подключиться к Яндекс Календарю: "
  const MissingCredentialsMessage: string := "Не указаны учетные данные Яндекс Календаря"
  const NoCalendarsMessage: string := "Календари не найдены в Яндекс аккаунте"
  const IcsSuffix: string := ".ics"

  /** A CalDAV client: the server it talks to and the account it logs in as. */
  datatype Client = Client(url: string, user: string, password: string)

  /** The names of the account's calendars as the server lists them, or the message of the error it raised. */
  type Listing = Result<seq<string>, string>

  /** What is sent to the server to save an event. */
  datatype SavedEvent = SavedEvent(start: DateTime, end: DateTime, summary: string, description: string)

  /** The record `create_event` returns. */
  datatype EventRecord = EventRecord(eventId: string, url: string, summary: string, start: DateTime, end: DateTime)

  /**
   * `_connect`: the first calendar of the account, or the error raised, always
   * wrapped in the "could not connect" message.
   */
  function ConnectResult(user: string, password: string, listing: Listing): (r: Result<string, string>)
    ensures r.Success? <==> user != "" && password != "" && listing.Success? && listing.value != []
    ensures r.Success? ==> r.value == listing.value[0]
    ensures r.Failure? ==> StartsWith(r.error, ConnectFailurePrefix)
  {
    if user == "" || password == "" then Failure(ConnectFailurePrefix + MissingCredentialsMessage)
    else match listing
      case Failure(e) => Failure(ConnectFailurePrefix + e)
      case Success(calendars) =>
        if calendars == [] then Failure(ConnectFailurePrefix + NoCalendarsMessage) else Success(calendars[0])
  }

  /** `description or "Создано через Telegram Бота"`. */
  function DescriptionOrDefault(description: Option<string>): (d: string)
    ensures description.Some? && description.value != [] ==> d == description.value
    ensures description.None? || description.value == [] ==> d == DefaultDescription
  {
    match description
    case Some(text) => if text != [] then text else DefaultDescription
    case None => DefaultDescription
  }

  /** The event saved for a summary, a start, a duration in minutes and a description. */
  function EventFor(summary: string, start: DateTime, duration: int, description: Option<string>): (e: SavedEvent)
    ensures e.start == start && e.end.offset == start.offset && e.end.wall - start.wall == duration * MinuteSeconds
    ensures e.summary == summary && e.description == DescriptionOrDefault(description)
  {
    SavedEvent(start, Plus(start, duration * MinuteSeconds), summary, DescriptionOrDefault(description))
  }

  /** `url.split("/")[-1].replace(".ics", "")`. */
  function EventId(url: string): (id: string)
    ensures |id| <= |url| && '/' !in id
  {
    var parts := Split(url, "/");
    SplitLast(url, '/');
    ReplaceAll(parts[|parts| - 1], IcsSuffix, "")
  }

  /** Saving the event in calendar `c`: the record built from the URL the server gives it, or the error raised. */
  function SaveInto(c: string, summary: string, start: DateTime, duration: int, description: Option<string>,
                    save: (string, SavedEvent) -> Result<string, string>): (r: Result<EventRecord, string>)
    ensures r.Success? <==> save(c, EventFor(summary, start, duration, description)).Success?
    ensures r.Failure? ==> r.error == save(c, EventFor(summary, start, duration, description)).error
    ensures r.Success? ==> && r.value.url == save(c, EventFor(summary, start, duration, description)).value
                           && r.value.eventId == EventId(r.value.url)
                           && r.value.summary == summary && r.value.start == start
                           && r.value.end == EventFor(summary, start, duration, description).end
  {
    var event := EventFor(summary, start, duration, description);
    match save(c, event)
    case Failure(e) => Failure(e)
    case Success(url) => Success(EventRecord(EventId(url), url, summary, start, event.end))
  }

  /**
   * `create_event` on a service whose calendar is `calendar`: connect first
   * when there is none, then save the event; any error is raised again.
   */
  function CreateEventResult(calendar: Option<string>, user: string, password: string, listing: Listing,
                             summary: string, start: DateTime, duration: int, description: Option<string>,
                             save: (string, SavedEvent) -> Result<string, string>): (r: Result<EventRecord, string>)
    ensures r.Success? ==> && r.value.summary == summary && r.value.start == start
                           && r.value.end == EventFor(summary, start, duration, description).end
                           && r.value.eventId == EventId(r.value.url)
  {
    var target := if calendar.Some? then Success(calendar.value) else ConnectResult(user, password, listing);
    match target
    case Failure(e) => Failure(e)
    case Success(c) => SaveInto(c, summary, start, duration, description, save)
  }

  /**
   * `get_events`: connect first when there is no calendar, then search the
   * range when both bounds are given and list every event otherwise; any
   * error gives an empty list.
   */
  function EventsResult(calendar: Option<string>, user: string, password: string, listing: Listing,
                        from: Option<DateTime>, to: Option<DateTime>,
                        search: (string, DateTime, DateTime) -> Result<seq<string>, string>,
                        all: string -> Result<seq<string>, string>): (events: seq<string>)
    ensures events != [] ==> calendar.Some? || ConnectResult(user, password, listing).Success?
  {
    var target := if calendar.Some? then Success(calendar.value) else ConnectResult(user, password, listing);
    match target
    case Failure(_) => []
    case Success(c) =>
      var found := if from.Some? && to.Some? then search(c, from.value, to.value) else all(c);
      match found
      case Failure(_) => []
      case Success(events) => events
  }

  /** The service remembers its client and calendar once connected. */
  class YandexCalendarService {
    const user: string
    const password: string
    const url: string
    var client: Option<Client>
    var calendar: Option<string>

    /** The fields before the first connection. */
    constructor Init(user: string, password: string, url: string)
      ensures this.user == user && this.password == password && this.url == url
      ensures client.None? && calendar.None?
    {
      this.user := user;
      this.password := password;
      this.url := url;
      client := None;
      calendar := None;
    }

    /** `__init__`: a new service, connected, or the error its connection raised. */
    static method Open(user: string, password: string, url: string, listing: Listing)
      returns (r: Result<YandexCalendarService, string>)
      ensures r.Success? <==> ConnectResult(user, password, listing).Success?
      ensures r.Failure? ==> r.error == ConnectResult(user, password, listing).error
      ensures r.Success? ==> && fresh(r.value) && r.value.user == user && r.value.password == password
                             && r.value.client == Some(Client(url, user, password))
                             && r.value.calendar == Some(ConnectResult(user, password, listing).value)
    {
      var service := new YandexCalendarService.Init(user, password, url);
      var connected := service.Connect(listing);
      if connected.Failure? {
        return Failure(connected.error);
      }
      return Success(service);
    }

    /**
     * `_connect`: the client is set once the credentials are present, the
     * calendar only when the account has one.
     */
    method Connect(listing: Listing) returns (r: Result<(), string>)
      modifies this
      ensures r.Success? <==> ConnectResult(user, password, listing).Success?
      ensures r.Failure? ==> r.error == ConnectResult(user, password, listing).error
      ensures client == if user != "" && password != "" then Some(Client(url, user, password)) else old(client)
      ensures calendar == if r.Success? then Some(ConnectResult(user, password, listing).value) else old(calendar)
    {
      if user == "" || password == "" {
        return Failure(ConnectFailurePrefix + MissingCredentialsMessage);
      }
      client := Some(Client(url, user, password));
      match listing {
        case Failure(e) =>
          return Failure(ConnectFailurePrefix + e);
        case Success(calendars) =>
          if calendars == [] {
            return Failure(ConnectFailurePrefix + NoCalendarsMessage);
          }
          calendar := Some(calendars[0]);
          return Success(());
      }
    }

    /** `create_event`: the calendar is connected first if need be. */
    method CreateEvent(summary: string, start: DateTime, duration: int, description: Option<string>,
                       listing: Listing, save: (string, SavedEvent) -> Result<string, string>)
      returns (r: Result<EventRecord, string>)
      modifies this
      ensures r == CreateEventResult(old(calendar), user, password, listing, summary, start, duration, description, save)
      ensures old(calendar).Some? ==> calendar == old(calendar) && client == old(client)
      ensures old(calendar).None? ==>
        && calendar == (if ConnectResult(user, password, listing).Success? then Some(ConnectResult(user, password, listing).value) else None)
        && client == (if user != "" && password != "" then Some(Client(url, user, password)) else old(client))
    {
      if calendar.None? {
        var connected := Connect(listing);
        if connected.Failure? {
          return Failure(connected.error);
        }
      }
      var event := EventFor(summary, start, duration, description);
      var saved := save(calendar.value, event);
      if saved.Failure? {
        return Failure(saved.error);
      }
      var url := saved.value;
      return Success(EventRecord(EventId(url), url, summary, start, event.end));
    }

    /** `get_events`: errors, the connection's included, give an empty list. */
    method GetEvents(from: Option<DateTime>, to: Option<DateTime>, listing: Listing,
                     search: (string, DateTime, DateTime) -> Result<seq<string>, string>,
                     all: string -> Result<seq<string>, string>)
      returns (events: seq<string>)
      modifies this
      ensures events == EventsResult(old(calendar), user, password, listing, from, to, search, all)
      ensures old(calendar).Some? ==> calendar == old(calendar) && client == old(client)
      ensures old(calendar).None? ==>
        && calendar == (if ConnectResult(user, password, listing).Success? then Some(ConnectResult(user, password, listing).value) else None)
        && client == (if user != "" && password != "" then Some(Client(url, user, password)) else old(client))
    {
      if calendar.None? {
        var connected := Connect(listing);
        if connected.Failure? {
          return [];
        }
      }
      var found := if from.Some? && to.Some? then search(calendar.value, from.value, to.value) else all(calendar.value);
      if found.Failure? {
        return [];
      }
      return found.value;
    }
  }

  /** The end of a created event is its start plus the duration, and the record echoes the summary and start. */
  lemma CreatedEventEnd(calendar: Option<string>, user: string, password: string, listing: Listing,
                        summary: string, start: DateTime, duration: int, description: Option<string>,
                        save: (string, SavedEvent) -> Result<string, string>)
    requires CreateEventResult(calendar, user, password, listing, summary, start, duration, description, save).Success?
    ensures var r := CreateEventResult(calendar, user, password, listing, summary, start, duration, description, save).value;
      && r.summary == summary && r.start == start
      && r.end.offset == start.offset && r.end.wall - start.wall == duration * MinuteSeconds
  {
  }

  /**
   * A connected service saves the event it is given in its own calendar, with
   * the default description when none is given; a service without a calendar
   * saves it in the first calendar of the account.
   */
  lemma CreateEventSaves(calendar: Option<string>, user: string, password: string, listing: Listing,
                         summary: string, start: DateTime, duration: int, description: Option<string>,
                         save: (string, SavedEvent) -> Result<string, string>)
    requires calendar.Some? || ConnectResult(user, password, listing).Success?
    ensures var c := if calendar.Some? then calendar.value else listing.value[0];
      var event := SavedEvent(start, Plus(start, duration * MinuteSeconds), summary,
                              if description.None? || description.value == [] then DefaultDescription else description.value);
      && CreateEventResult(calendar, user, password, listing, summary, start, duration, description, save)
         == match save(c, event)
            case Failure(e) => Failure(e)
            case Success(url) => Success(EventRecord(EventId(url), url, summary, start, event.end))
  {
  }

  /** Without a calendar and without an account that has one, nothing is saved and the connection error is raised. */
  lemma CreateEventUnconnected(user: string, password: string, listing: Listing,
                               summary: string, start: DateTime, duration: int, description: Option<string>,
                               save: (string, SavedEvent) -> Result<string, string>)
    requires ConnectResult(user, password, listing).Failure?
    ensures CreateEventResult(None, user, password, listing, summary, start, duration, description, save)
            == Failure(ConnectResult(user, password, listing).error)
    ensures StartsWith(CreateEventResult(None, user, password, listing, summary, start, duration, description, save).error,
                       ConnectFailurePrefix)
  {
  }

  /**
   * A range search happens only when both bounds are given, in the service's
   * calendar or, without one, in the first calendar of the account; a failed
   * connection or request gives no events.
   */
  lemma EventsChoice(calendar: Option<string>, user: string, password: string, listing: Listing,
                     from: Option<DateTime>, to: Option<DateTime>,
                     search: (string, DateTime, DateTime) -> Result<seq<string>, string>,
                     all: string -> Result<seq<string>, string>)
    ensures var events := EventsResult(calendar, user, password, listing, from, to, search, all);
      && (calendar.None? && ConnectResult(user, password, listing).Failure? ==> events == [])
      && (calendar.Some? || ConnectResult(user, password, listing).Success? ==>
            var c := if calendar.Some? then calendar.value else listing.value[0];
            && (from.Some? && to.Some? ==>
                  events == (if search(c, from.value, to.value).Success? then search(c, from.value, to.value).value else []))
            && (from.None? || to.None? ==>
                  events == (if all(c).Success? then all(c).value else [])))
  {
  }

  /** The element of a one-character split after the last separator is everything after it. */
  lemma {:induction false} SplitAfterLast(a: string, c: char, b: string)
    requires c !in b
    ensures var parts := Split(a + [c] + b, [c]); parts[|parts| - 1] == b
  {
    var s := a + [c] + b;
    SplitLast(s, c);
    var parts := Split(s, [c]);
    SuffixAfterSeparator(a, c, b, parts[|parts| - 1]);
  }

  /** A suffix of `a + [c] + b` without `c`, preceded by `c` unless it is everything, is `b` when `b` has no `c`. */
  lemma SuffixAfterSeparator(a: string, c: char, b: string, last: string)
    requires c !in b && AfterLast(a + [c] + b, c, last)
    ensures last == b
  {
    var s := a + [c] + b;
    assert s[|a|] == c;
    assert forall k :: |s| - |last| <= k < |s| ==> s[k] == last[k - (|s| - |last|)];
    assert forall k :: |a| < k < |s| ==> s[k] == b[k - |a| - 1];
    assert |last| == |b|;
    assert s[|s| - |b|..] == b;
  }

  /** Replacing every `pat` in `s + pat`, where `s` never contains the first character of `pat`, replaces just the final one. */
  lemma {:induction false} ReplaceAllTrailing(s: string, pat: string, rep: string)
    requires |pat| > 0 && pat[0] !in s
    ensures ReplaceAll(s + pat, pat, rep) == s + rep
  {
    if s == [] {
      assert [] + pat == pat;
      assert pat[|pat|..] == [];
    } else {
      assert (s + pat)[0] == s[0];
      assert (s + pat)[1..] == s[1..] + pat;
      ReplaceAllTrailing(s[1..], pat, rep);
    }
  }

  /** The event id of `<collection>/<id>.ics` is `id`, for an id without `/` or `.`. */
  lemma EventIdOfIcsUrl(collection: string, id: string)
    requires '/' !in id && '.' !in id
    ensures EventId(collection + "/" + id + IcsSuffix) == id
  {
    assert collection + "/" + id + IcsSuffix == collection + ['/'] + (id + IcsSuffix);
    SplitAfterLast(collection, '/', id + IcsSuffix);
    ReplaceAllTrailing(id, IcsSuffix, "");
    assert id + "" == id;
  }

  /** The event id of `<collection>/<name>` is `name` when the name holds no `/` and no `.ics`. */
  lemma EventIdOfPlainUrl(collection: string, name: string)
    requires '/' !in name && forall j :: !OccursAt(name, IcsSuffix, j)
    ensures EventId(collection + "/" + name) == name
  {
    assert collection + "/" + name == collection + ['/'] + name;
    SplitAfterLast(collection, '/', name);
    ReplaceAllAbsent(name, IcsSuffix, "");
  }
}
