/**
 * The chat handlers' state: the e-mail a user has sent while the password is
 * still to come, the stored accounts, and the calendar service cached per
 * user; and the loop that turns the events read from a voice message into
 * calendar entries and reminders.
 *
 * The credential store is a map from user ids to accounts. Whether a calendar
 * service can be built (or rebuilt) for an account is passed in as
 * `connects`; the service is remembered by the account it was built with.
 */
module Bot {
  import opened Wrappers
  import opened Text
  import opened Time
  import opened JsonValues
  import Nlu
  import Credentials
  import Calendar
  import Scheduler

  /** An e-mail address and an app password. */
  datatype Account = Account(user: string, password: string)

  /** The per-user state: pending e-mails, stored accounts and cached services. */
  datatype Users = Users(setup: map<int, string>, stored: map<int, Account>, services: map<int, Account>)

  /** Why no calendar service could be had for a user. */
  datatype ServiceError = NotConfigured | ConnectFailed

  /** What the text handler answers; a saved password is shown masked, so only its length is kept. */
  datatype TextReply =
    | EmailSaved(email: string)
    | CredentialsSaved(email: string, passwordLength: nat)
    | PasswordUpdated(email: string, passwordLength: nat)
    | EmailMissing
    | SaveFailed
    | NotCredentials

  /**
   * `get_user_calendar_service`: the cached service; otherwise a new one for
   * the stored account, or for the configured account when the user has
   * none, cached once it connects.
   */
  function ServiceFor(u: Users, uid: int, config: Account, connects: Account -> bool): (r: (Users, Result<Account, ServiceError>))
    ensures r.1.Success? ==> uid in r.0.services && r.0.services[uid] == r.1.value
    ensures r.1.Success? && uid !in u.services ==> r.1.value == if uid in u.stored then u.stored[uid] else config
    ensures uid in u.services ==> r == (u, Success(u.services[uid]))
    ensures r.1 == Failure(NotConfigured) <==> uid !in u.services && uid !in u.stored && (config.user == "" || config.password == "")
    ensures r.1.Failure? ==> r.0 == u
    ensures r.0.setup == u.setup && r.0.stored == u.stored
  {
    if uid in u.services then (u, Success(u.services[uid]))
    else
      var account :=
        if uid in u.stored then Some(u.stored[uid])
        else if config.user != "" && config.password != "" then Some(config)
        else None;
      match account
      case None => (u, Failure(NotConfigured))
      case Some(a) =>
        if connects(a) then (u.(services := u.services[uid := a]), Success(a)) else (u, Failure(ConnectFailed))
  }

  /**
   * `save_user_credentials`: the account is stored, then the user's service
   * is rebuilt for it; false when that connection fails.
   */
  function Saved(u: Users, uid: int, account: Account, connects: Account -> bool): (r: (Users, bool))
    ensures r.0.stored == u.stored[uid := account] && r.0.setup == u.setup
    ensures r.1 == connects(account)
    ensures r.0.services == if r.1 then u.services[uid := account] else u.services
  {
    var stored := u.(stored := u.stored[uid := account]);
    if connects(account) then (stored.(services := stored.services[uid := account]), true) else (stored, false)
  }

  /** Saving and, on success, forgetting the pending e-mail; the reply for a success is `ok`. */
  function SavedAndCleared(u: Users, uid: int, account: Account, connects: Account -> bool, ok: TextReply): (r: (Users, TextReply))
    ensures r.0.stored == u.stored[uid := account]
    ensures connects(account) ==> r.1 == ok && r.0.setup == u.setup - {uid} && r.0.services == u.services[uid := account]
    ensures !connects(account) ==> r.1 == SaveFailed && r.0.setup == u.setup && r.0.services == u.services
  {
    var (u1, saved) := Saved(u, uid, account, connects);
    if saved then (u1.(setup := u1.setup - {uid}), ok) else (u1, SaveFailed)
  }

  /** The setup transition for the address and password read from a message. */
  function Transition(u: Users, uid: int, email: Option<string>, password: Option<string>,
                      connects: Account -> bool): (r: (Users, TextReply))
    ensures r.1 == NotCredentials <==> email.None? && password.None?
    ensures r.1.EmailSaved? ==> && email.Some? && password.None? && r.1.email == email.value
                                && r.0 == u.(setup := u.setup[uid := email.value])
    ensures r.1.CredentialsSaved? || r.1.PasswordUpdated? ==>
      && password.Some? && r.1.passwordLength == |password.value|
      && uid in r.0.stored && r.0.stored[uid] == Account(r.1.email, password.value)
      && uid in r.0.services && r.0.services[uid] == r.0.stored[uid] && uid !in r.0.setup
    ensures r.1 == EmailMissing ==> r.0 == u && email.None? && uid !in u.setup && uid !in u.stored
  {
    if email.None? && password.None? then (u, NotCredentials)
    else if email.Some? then
      if password.None? then (u.(setup := u.setup[uid := email.value]), EmailSaved(email.value))
      else SavedAndCleared(u, uid, Account(email.value, password.value), connects,
                           CredentialsSaved(email.value, |password.value|))
    else if uid in u.setup then
      SavedAndCleared(u, uid, Account(u.setup[uid], password.value), connects,
                      CredentialsSaved(u.setup[uid], |password.value|))
    else if uid in u.stored then
      var (u1, saved) := Saved(u, uid, Account(u.stored[uid].user, password.value), connects);
      (u1, if saved then PasswordUpdated(u.stored[uid].user, |password.value|) else SaveFailed)
    else (u, EmailMissing)
  }

  /** `handle_text`: the transition for the credentials read from the stripped message. */
  function HandleTextResult(u: Users, uid: int, raw: string, connects: Account -> bool): (r: (Users, TextReply))
    ensures r.1.CredentialsSaved? || r.1.PasswordUpdated? ==> r.1.passwordLength >= 8
    ensures r.1.EmailSaved? ==> Credentials.EmailSearch(Strip(raw)).Some?
    ensures r.1 == NotCredentials ==> r.0 == u
  {
    StripIdempotent(raw);
    var found := Credentials.Extract(Strip(raw));
    Transition(u, uid, found.0, found.1, connects)
  }

  /** An event created from a voice message, as reported back to the user. */
  datatype Created = Created(summary: string, start: DateTime, duration: int)

  /** Why an event was not created: its action is not supported, or creating it raised. */
  datatype DispatchError = NotSupported(action: Json) | CreationFailed(summary: Option<Json>)

  /** What the dispatch of some events produced: the created events, the errors and the new reminder rows. */
  datatype Dispatched = Dispatched(created: seq<Created>, errors: seq<DispatchError>, reminders: seq<Scheduler.Notification>)

  /** `event_info.get(key)`: the JSON value of a field, None when it is missing. */
  function Get(e: Nlu.Event, key: string): Option<Json> {
    if key in e && e[key].Value? then Some(e[key].json) else None
  }

  /** `timedelta(minutes=d)` accepts an integer, and a boolean as 0 or 1; anything else raises. */
  function Minutes(d: Json): (r: Option<int>)
    ensures r.Some? <==> d.JNumber? || d.JBool?
    ensures d.JNumber? ==> r == Some(d.n)
    ensures d.JBool? ==> r.value == (if d.b then 1 else 0)
  {
    match d
    case JNumber(n) => Some(n)
    case JBool(b) => Some(if b then 1 else 0)
    case _ => None
  }

  /** The description passed on: None for a null, the text of a string. */
  function DescriptionArgument(d: Option<Json>): (r: Option<Option<string>>)
    ensures r.Some? <==> d.None? || d.value.JNull? || d.value.JString?
    ensures r.Some? && r.value.Some? ==> d == Some(JString(r.value.value))
  {
    match d
    case None => Some(None)
    case Some(JNull) => Some(None)
    case Some(JString(s)) => Some(Some(s))
    case Some(_) => None
  }

  /** The calendar request an event makes: summary, start, duration and description, when they have usable values. */
  function Request(e: Nlu.Event): (r: Option<(string, DateTime, int, Option<string>)>)
    ensures r.Some? ==> && "summary" in e && e["summary"] == Nlu.Value(JString(r.value.0))
                        && "start_datetime" in e && e["start_datetime"] == Nlu.Start(r.value.1)
                        && ("duration_minutes" !in e ==> r.value.2 == Nlu.DefaultDurationMinutes)
                        && (r.value.3.Some? ==> "description" in e && e["description"] == Nlu.Value(JString(r.value.3.value)))
                        && ("description" !in e ==> r.value.3.None?)
    ensures ("summary" in e && e["summary"].Value? && e["summary"].json.JString?
             && "start_datetime" in e && e["start_datetime"].Start?
             && "duration_minutes" !in e && "description" !in e) ==> r.Some?
  {
    var summary := Get(e, "summary");
    var duration := if "duration_minutes" in e then Get(e, "duration_minutes") else Some(JNumber(Nlu.DefaultDurationMinutes));
    var description := DescriptionArgument(Get(e, "description"));
    if summary.Some? && summary.value.JString? && "start_datetime" in e && e["start_datetime"].Start?
       && duration.Some? && Minutes(duration.value).Some? && description.Some?
    then Some((summary.value.s, e["start_datetime"].time, Minutes(duration.value).value, description.value))
    else None
  }

  /**
   * One `create_event` event: save it in the calendar, store it, and add its
   * reminders; the created entry and the reminder rows, or None when a step
   * raised.
   */
  function Creation(e: Nlu.Event, calendar: string, save: (string, Calendar.SavedEvent) -> Result<string, string>,
                    storeEvent: Calendar.EventRecord -> Result<int, string>, times: seq<int>,
                    clock: Scheduler.Clock): (r: Option<(Created, seq<Scheduler.Notification>)>)
    ensures r.Some? ==> && Request(e).Some?
                        && r.value.0 == Created(Request(e).value.0, Request(e).value.1, Request(e).value.2)
                        && save(calendar, Calendar.EventFor(Request(e).value.0, Request(e).value.1,
                                                            Request(e).value.2, Request(e).value.3)).Success?
    ensures Request(e).None? ==> r.None?
  {
    match Request(e)
    case None => None
    case Some((summary, start, duration, description)) =>
      var record := Calendar.SaveInto(calendar, summary, start, duration, description, save);
      if record.Failure? then None
      else match storeEvent(record.value)
        case Failure(_) => None
        case Success(eventId) =>
          Some((Created(record.value.summary, record.value.start, duration),
                Scheduler.Reminders(eventId, record.value.start, times, clock)))
  }

  /** Whether an event asks for a new calendar entry. */
  predicate CreatesEvent(e: Nlu.Event)
    requires "action" in e
  {
    e["action"] == Nlu.Value(JString(Nlu.CreateEventAction))
  }

  /** The action as the error message shows it. */
  function ActionOf(e: Nlu.Event): Json
    requires "action" in e
  {
    match e["action"]
    case Value(j) => j
    case Start(_) => JNull
  }

  /** What one event adds to the outcome of a dispatch. */
  function DispatchOne(e: Nlu.Event, calendar: string, save: (string, Calendar.SavedEvent) -> Result<string, string>,
                       storeEvent: Calendar.EventRecord -> Result<int, string>, times: seq<int>,
                       clock: Scheduler.Clock): (d: Dispatched)
    requires "action" in e
    ensures |d.created| + |d.errors| == 1
    ensures !CreatesEvent(e) ==> d == Dispatched([], [NotSupported(ActionOf(e))], [])
    ensures d.created != [] ==> CreatesEvent(e)
  {
    if !CreatesEvent(e) then Dispatched([], [NotSupported(ActionOf(e))], [])
    else match Creation(e, calendar, save, storeEvent, times, clock)
      case None => Dispatched([], [CreationFailed(Get(e, "summary"))], [])
      case Some((created, reminders)) => Dispatched([created], [], reminders)
  }

  /** Two dispatch outcomes, one after the other. */
  function Then(a: Dispatched, b: Dispatched): Dispatched {
    Dispatched(a.created + b.created, a.errors + b.errors, a.reminders + b.reminders)
  }

  /**
   * The loop over the events of a voice message, in order: every event gives
   * exactly one entry, a created event or an error, and a failure does not
   * stop the events after it.
   */
  function Dispatch(events: seq<Nlu.Event>, calendar: string, save: (string, Calendar.SavedEvent) -> Result<string, string>,
                    storeEvent: Calendar.EventRecord -> Result<int, string>, times: seq<int>,
                    clock: Scheduler.Clock): (d: Dispatched)
    requires forall k :: 0 <= k < |events| ==> "action" in events[k]
    ensures |d.created| + |d.errors| == |events|
  {
    if events == [] then Dispatched([], [], [])
    else
      var init := events[..|events| - 1];
      Then(Dispatch(init, calendar, save, storeEvent, times, clock),
           DispatchOne(events[|events| - 1], calendar, save, storeEvent, times, clock))
  }

  /** Dispatching one more event appends its outcome to that of the events before it. */
  lemma DispatchStep(events: seq<Nlu.Event>, i: nat, calendar: string,
                     save: (string, Calendar.SavedEvent) -> Result<string, string>,
                     storeEvent: Calendar.EventRecord -> Result<int, string>, times: seq<int>,
                     clock: Scheduler.Clock)
    requires i < |events|
    requires forall k :: 0 <= k < |events| ==> "action" in events[k]
    ensures Dispatch(events[..i + 1], calendar, save, storeEvent, times, clock)
         == Then(Dispatch(events[..i], calendar, save, storeEvent, times, clock),
                 DispatchOne(events[i], calendar, save, storeEvent, times, clock))
  {
    assert events[..i + 1][..i] == events[..i];
  }

  /** The handlers' state, and the reminder table they add to. */
  class BotState {
    var setupState: map<int, string>
    var stored: map<int, Account>
    var services: map<int, Account>
    const config: Account
    const reminders: Scheduler.NotificationStore

    function State(): Users
      reads this
    {
      Users(setupState, stored, services)
    }

    /** The bot as it starts: nothing pending, nothing cached, nothing stored yet. */
    constructor(config: Account, reminders: Scheduler.NotificationStore)
      ensures State() == Users(map[], map[], map[])
      ensures this.config == config && this.reminders == reminders
    {
      setupState := map[];
      stored := map[];
      services := map[];
      this.config := config;
      this.reminders := reminders;
    }

    /** `get_user_calendar_service`. */
    method GetUserCalendarService(uid: int, connects: Account -> bool) returns (r: Result<Account, ServiceError>)
      modifies this
      ensures (State(), r) == ServiceFor(old(State()), uid, config, connects)
    {
      if uid !in services {
        if uid in stored {
          if !connects(stored[uid]) {
            return Failure(ConnectFailed);
          }
          services := services[uid := stored[uid]];
        } else if config.user != "" && config.password != "" {
          if !connects(config) {
            return Failure(ConnectFailed);
          }
          services := services[uid := config];
        } else {
          return Failure(NotConfigured);
        }
      }
      return Success(services[uid]);
    }

    /** `save_user_credentials`. */
    method SaveUserCredentials(uid: int, account: Account, connects: Account -> bool) returns (ok: bool)
      modifies this
      ensures (State(), ok) == Saved(old(State()), uid, account, connects)
    {
      stored := stored[uid := account];
      if !connects(account) {
        return false;
      }
      services := services[uid := account];
      return true;
    }

    /** `handle_text`. */
    method HandleText(uid: int, raw: string, connects: Account -> bool) returns (reply: TextReply)
      modifies this
      ensures (State(), reply) == HandleTextResult(old(State()), uid, raw, connects)
    {
      var email, password := Credentials.ExtractCredentials(Strip(raw));
      if email.None? && password.None? {
        return NotCredentials;
      }
      if email.Some? {
        if password.None? {
          setupState := setupState[uid := email.value];
          return EmailSaved(email.value);
        }
        var ok := SaveUserCredentials(uid, Account(email.value, password.value), connects);
        if !ok {
          return SaveFailed;
        }
        setupState := setupState - {uid};
        return CredentialsSaved(email.value, |password.value|);
      }
      if uid in setupState {
        var pending := setupState[uid];
        var ok := SaveUserCredentials(uid, Account(pending, password.value), connects);
        if !ok {
          return SaveFailed;
        }
        setupState := setupState - {uid};
        return CredentialsSaved(pending, |password.value|);
      }
      if uid in stored {
        var user := stored[uid].user;
        var ok := SaveUserCredentials(uid, Account(user, password.value), connects);
        if !ok {
          return SaveFailed;
        }
        return PasswordUpdated(user, |password.value|);
      }
      return EmailMissing;
    }

    /** One event of the loop: created with its reminders stored, or reported. */
    method DispatchEvent(e: Nlu.Event, calendar: string,
                         save: (string, Calendar.SavedEvent) -> Result<string, string>,
                         storeEvent: Calendar.EventRecord -> Result<int, string>, times: seq<int>,
                         clock: Scheduler.Clock)
      returns (entry: Dispatched)
      requires "action" in e
      modifies reminders
      ensures entry == DispatchOne(e, calendar, save, storeEvent, times, clock)
      ensures reminders.rows == old(reminders.rows) + entry.reminders
    {
      if !CreatesEvent(e) {
        return Dispatched([], [NotSupported(ActionOf(e))], []);
      }
      var request := Request(e);
      if request.None? {
        return Dispatched([], [CreationFailed(Get(e, "summary"))], []);
      }
      var (summary, start, duration, description) := request.value;
      var record := Calendar.SaveInto(calendar, summary, start, duration, description, save);
      if record.Failure? {
        return Dispatched([], [CreationFailed(Get(e, "summary"))], []);
      }
      var stored := storeEvent(record.value);
      if stored.Failure? {
        return Dispatched([], [CreationFailed(Get(e, "summary"))], []);
      }
      Scheduler.CreateNotifications(reminders, stored.value, record.value.start, times, clock);
      entry := Dispatched([Created(record.value.summary, record.value.start, duration)], [],
                          Scheduler.Reminders(stored.value, record.value.start, times, clock));
    }

    /** The `i`-th round of the loop: its entry extends the outcome of the events before it. */
    method DispatchNext(events: seq<Nlu.Event>, i: nat, ghost d: Dispatched, calendar: string,
                        save: (string, Calendar.SavedEvent) -> Result<string, string>,
                        storeEvent: Calendar.EventRecord -> Result<int, string>, times: seq<int>,
                        clock: Scheduler.Clock)
      returns (entry: Dispatched)
      requires i < |events|
      requires forall k :: 0 <= k < |events| ==> "action" in events[k]
      requires d == Dispatch(events[..i], calendar, save, storeEvent, times, clock)
      modifies reminders
      ensures Then(d, entry) == Dispatch(events[..i + 1], calendar, save, storeEvent, times, clock)
      ensures reminders.rows == old(reminders.rows) + entry.reminders
    {
      DispatchStep(events, i, calendar, save, storeEvent, times, clock);
      entry := DispatchEvent(events[i], calendar, save, storeEvent, times, clock);
    }

    /**
     * The loop of `handle_voice` over the extracted events: each one is
     * created or reported, in order, and its reminders are stored.
     */
    method DispatchEvents(events: seq<Nlu.Event>, calendar: string,
                          save: (string, Calendar.SavedEvent) -> Result<string, string>,
                          storeEvent: Calendar.EventRecord -> Result<int, string>, times: seq<int>,
                          clock: Scheduler.Clock)
      returns (created: seq<Created>, errors: seq<DispatchError>)
      requires forall k :: 0 <= k < |events| ==> "action" in events[k]
      modifies reminders
      ensures var d := Dispatch(events, calendar, save, storeEvent, times, clock);
        created == d.created && errors == d.errors && reminders.rows == old(reminders.rows) + d.reminders
    {
      created, errors := [], [];
      var i := 0;
      ghost var d := Dispatched([], [], []);
      while i < |events|
        invariant 0 <= i <= |events|
        invariant d == Dispatch(events[..i], calendar, save, storeEvent, times, clock)
        invariant created == d.created && errors == d.errors
        invariant reminders.rows == old(reminders.rows) + d.reminders
      {
        var entry := DispatchNext(events, i, d, calendar, save, storeEvent, times, clock);
        created, errors := created + entry.created, errors + entry.errors;
        d := Then(d, entry);
        i := i + 1;
      }
      assert events[..i] == events;
    }
  }

  /** An e-mail without a password is kept for the next message; nothing is stored. */
  lemma EmailOnlyIsPending(u: Users, uid: int, email: string, connects: Account -> bool)
    ensures Transition(u, uid, Some(email), None, connects) == (u.(setup := u.setup[uid := email]), EmailSaved(email))
  {
  }

  /** An e-mail with a password stores both and clears the pending e-mail once the service connects. */
  lemma EmailAndPasswordSaved(u: Users, uid: int, email: string, password: string, connects: Account -> bool)
    ensures var (u1, reply) := Transition(u, uid, Some(email), Some(password), connects);
      var account := Account(email, password);
      && u1.stored == u.stored[uid := account]
      && (connects(account) ==> && u1.setup == u.setup - {uid} && u1.services == u.services[uid := account]
                                && reply == CredentialsSaved(email, |password|))
      && (!connects(account) ==> u1.setup == u.setup && u1.services == u.services && reply == SaveFailed)
  {
  }

  /**
   * A password alone completes a pending e-mail; without one it updates the
   * stored account's password; without either nothing changes.
   */
  lemma PasswordOnly(u: Users, uid: int, password: string, connects: Account -> bool)
    ensures var (u1, reply) := Transition(u, uid, None, Some(password), connects);
      && (uid in u.setup ==>
            && u1.stored == u.stored[uid := Account(u.setup[uid], password)]
            && (connects(Account(u.setup[uid], password)) ==>
                  uid !in u1.setup && reply == CredentialsSaved(u.setup[uid], |password|))
            && (!connects(Account(u.setup[uid], password)) ==> u1.setup == u.setup && reply == SaveFailed))
      && (uid !in u.setup && uid in u.stored ==>
            && u1.stored == u.stored[uid := Account(u.stored[uid].user, password)]
            && u1.setup == u.setup
            && reply == if connects(Account(u.stored[uid].user, password)) then PasswordUpdated(u.stored[uid].user, |password|) else SaveFailed)
      && (uid !in u.setup && uid !in u.stored ==> u1 == u && reply == EmailMissing)
  {
  }

  /** A message without an address or a password changes nothing. */
  lemma NothingFound(u: Users, uid: int, connects: Account -> bool)
    ensures Transition(u, uid, None, None, connects) == (u, NotCredentials)
  {
  }

  /** `u1` agrees with `u` on every user but `uid`. */
  ghost predicate SameElsewhere(u: Users, u1: Users, uid: int) {
    forall other :: other != uid ==>
      && (other in u1.setup <==> other in u.setup) && (other in u.setup ==> u1.setup[other] == u.setup[other])
      && (other in u1.stored <==> other in u.stored) && (other in u.stored ==> u1.stored[other] == u.stored[other])
      && (other in u1.services <==> other in u.services) && (other in u.services ==> u1.services[other] == u.services[other])
  }

  /** The account a transition saves, when it saves one. */
  function SavedAccount(u: Users, uid: int, email: Option<string>, password: string): Option<Account> {
    if email.Some? then Some(Account(email.value, password))
    else if uid in u.setup then Some(Account(u.setup[uid], password))
    else if uid in u.stored then Some(Account(u.stored[uid].user, password))
    else None
  }

  /** A transition either leaves the store and the cache alone or saves one account for the user. */
  lemma TransitionShape(u: Users, uid: int, email: Option<string>, password: Option<string>, connects: Account -> bool)
    ensures var (u1, reply) := Transition(u, uid, email, password, connects);
      && (u1.setup == u.setup || u1.setup == u.setup[uid := email.GetOr([])] || u1.setup == u.setup - {uid})
      && (password.None? || SavedAccount(u, uid, email, password.value).None? ==> u1.stored == u.stored && u1.services == u.services)
      && (password.Some? && SavedAccount(u, uid, email, password.value).Some? ==>
            var account := SavedAccount(u, uid, email, password.value).value;
            && u1.stored == u.stored[uid := account]
            && u1.services == (if connects(account) then u.services[uid := account] else u.services)
            && (reply == SaveFailed <==> !connects(account)))
  {
  }

  /** The text handler touches only the state of the user who wrote. */
  lemma TransitionOtherUsers(u: Users, uid: int, email: Option<string>, password: Option<string>, connects: Account -> bool)
    ensures SameElsewhere(u, Transition(u, uid, email, password, connects).0, uid)
  {
    TransitionShape(u, uid, email, password, connects);
  }

  /** Every stored password is at least 8 characters long. */
  predicate PasswordsLongEnough(u: Users) {
    forall v :: v in u.stored ==> |u.stored[v].password| >= 8
  }

  /** The text handler only stores passwords of at least 8 characters. */
  lemma HandleTextKeepsPasswordsLong(u: Users, uid: int, raw: string, connects: Account -> bool)
    requires PasswordsLongEnough(u)
    ensures PasswordsLongEnough(HandleTextResult(u, uid, raw, connects).0)
  {
    var (email, password) := Credentials.Extract(Strip(raw));
    TransitionShape(u, uid, email, password, connects);
  }

  /** The cached service of every user with a stored account was built for that account. */
  predicate CacheAgrees(u: Users) {
    forall v :: v in u.services && v in u.stored ==> u.services[v] == u.stored[v]
  }

  /** The cache and the store part ways only when a save could not rebuild the service. */
  lemma TransitionCache(u: Users, uid: int, email: Option<string>, password: Option<string>, connects: Account -> bool)
    requires CacheAgrees(u)
    ensures var (u1, reply) := Transition(u, uid, email, password, connects);
      CacheAgrees(u1) || reply == SaveFailed
  {
    TransitionShape(u, uid, email, password, connects);
  }

  /** Getting a service keeps the cache in agreement with the store. */
  lemma ServiceForCache(u: Users, uid: int, config: Account, connects: Account -> bool)
    requires CacheAgrees(u)
    ensures CacheAgrees(ServiceFor(u, uid, config, connects).0)
  {
  }

  /**
   * Dispatching two runs of events is dispatching the first, then the second:
   * entries keep the order of their events, and what happens to one event
   * does not depend on the others.
   */
  lemma {:induction false} DispatchAppend(a: seq<Nlu.Event>, b: seq<Nlu.Event>, calendar: string,
                                          save: (string, Calendar.SavedEvent) -> Result<string, string>,
                                          storeEvent: Calendar.EventRecord -> Result<int, string>, times: seq<int>,
                                          clock: Scheduler.Clock)
    requires forall k :: 0 <= k < |a| ==> "action" in a[k]
    requires forall k :: 0 <= k < |b| ==> "action" in b[k]
    ensures forall k :: 0 <= k < |a + b| ==> "action" in (a + b)[k]
    ensures Dispatch(a + b, calendar, save, storeEvent, times, clock)
            == Then(Dispatch(a, calendar, save, storeEvent, times, clock), Dispatch(b, calendar, save, storeEvent, times, clock))
    decreases |b|
  {
    ActionsAppend(a, b);
    if b == [] {
      assert a + b == a;
      ThenNothing(Dispatch(a, calendar, save, storeEvent, times, clock));
    } else {
      var init := b[..|b| - 1];
      var e := b[|b| - 1];
      ActionsAppend(a, init);
      assert (a + b)[..|a + b| - 1] == a + init;
      assert (a + b)[|a + b| - 1] == e;
      var de := DispatchOne(e, calendar, save, storeEvent, times, clock);
      assert Dispatch(a + b, calendar, save, storeEvent, times, clock)
             == Then(Dispatch(a + init, calendar, save, storeEvent, times, clock), de);
      DispatchAppend(a, init, calendar, save, storeEvent, times, clock);
      ThenAssociative(Dispatch(a, calendar, save, storeEvent, times, clock),
                      Dispatch(init, calendar, save, storeEvent, times, clock), de);
    }
  }

  lemma ActionsAppend(a: seq<Nlu.Event>, b: seq<Nlu.Event>)
    requires forall k :: 0 <= k < |a| ==> "action" in a[k]
    requires forall k :: 0 <= k < |b| ==> "action" in b[k]
    ensures forall k :: 0 <= k < |a + b| ==> "action" in (a + b)[k]
  {
    forall k | 0 <= k < |a + b| ensures "action" in (a + b)[k] {
      if k < |a| { assert (a + b)[k] == a[k]; } else { assert (a + b)[k] == b[k - |a|]; }
    }
  }

  lemma ThenNothing(d: Dispatched)
    ensures Then(d, Dispatched([], [], [])) == d
  {
    assert d.created + [] == d.created && d.errors + [] == d.errors && d.reminders + [] == d.reminders;
  }

  lemma ThenAssociative(x: Dispatched, y: Dispatched, z: Dispatched)
    ensures Then(Then(x, y), z) == Then(x, Then(y, z))
  {
    assert (x.created + y.created) + z.created == x.created + (y.created + z.created);
    assert (x.errors + y.errors) + z.errors == x.errors + (y.errors + z.errors);
    assert (x.reminders + y.reminders) + z.reminders == x.reminders + (y.reminders + z.reminders);
  }

  /**
   * An event the model read without a duration, with a string summary and a
   * start, is created for 60 minutes when the calendar and the store accept
   * it, and gets the reminders of its start.
   */
  lemma DefaultDurationCreated(fields: map<string, Json>, parseDate: string -> Option<DateTime>, now: int, zone: int,
                               calendar: string, save: (string, Calendar.SavedEvent) -> Result<string, string>,
                               storeEvent: Calendar.EventRecord -> Result<int, string>, times: seq<int>,
                               clock: Scheduler.Clock)
    requires "duration_minutes" !in fields && "action" !in fields && "description" !in fields
    requires "summary" in fields && fields["summary"].JString? && "start_datetime" in fields
    ensures var e := Nlu.NormalizeEvent(fields, parseDate, now, zone);
      var start := Nlu.StartTime(fields["start_datetime"], parseDate, now, zone);
      var event := Calendar.EventFor(fields["summary"].s, start, 60, None);
      && "action" in e && CreatesEvent(e)
      && (save(calendar, event).Success? && storeEvent(Calendar.SaveInto(calendar,
            fields["summary"].s, start, 60, None, save).value).Success? ==>
            var d := DispatchOne(e, calendar, save, storeEvent, times, clock);
            && d.created == [Created(fields["summary"].s, start, 60)] && d.errors == []
            && d.reminders == Scheduler.Reminders(storeEvent(Calendar.SaveInto(calendar,
                 fields["summary"].s, start, 60, None, save).value).value, start, times, clock))
  {
    var e := Nlu.NormalizeEvent(fields, parseDate, now, zone);
    assert Get(e, "summary") == Some(fields["summary"]);
    assert Get(e, "duration_minutes") == Some(JNumber(60));
    assert Get(e, "description") == Some(JNull);
    var start := Nlu.StartTime(fields["start_datetime"], parseDate, now, zone);
    assert Request(e) == Some((fields["summary"].s, start, 60, None));
  }
}
